/** The USB send queue of tng/usb_stm32: one buffer in flight and one storage buffer behind it, filled by
    usb_send and emptied by the transfer-complete callback. */
module Usb {
  const BUFFER_SIZE := 256

  // The queue, with the chunks that were handed to the hardware and the messages that were accepted.
  datatype Queue = Queue(
    inFlight: seq<bv8>, inProgress: bool, storage: seq<bv8>, chunks: seq<seq<bv8>>, accepted: seq<seq<bv8>>)

  // USBD_LL_Transmit either takes the buffer or does not.
  datatype Event = Send(message: seq<bv8>, transmitOk: bool) | Complete(transmitOk: bool)

  // usb_send_storage
  function SendStorage(q: Queue, transmitOk: bool): Queue {
    if q.storage == [] || q.inProgress then q
    else if transmitOk then q.(inFlight := q.storage, inProgress := true, storage := [],
                               chunks := q.chunks + [q.storage])
    else q.(inFlight := q.storage)
  }

  function Fits(q: Queue, message: seq<bv8>): bool { |q.storage| + |message| < BUFFER_SIZE }

  function Accept(q: Queue, message: seq<bv8>): Queue { q.(accepted := q.accepted + [message]) }

  // usb_append_to_storage
  function Append(q: Queue, message: seq<bv8>): (Queue, bool) {
    if Fits(q, message) then (Accept(q, message).(storage := q.storage + message), true) else (q, false)
  }

  // usb_send
  function SendMessage(q: Queue, message: seq<bv8>, transmitOk: bool): (Queue, bool) {
    if q.storage != [] then
      var (after, ok) := Append(q, message);
      if ok then (SendStorage(after, transmitOk), true) else (q, false)
    else if q.inProgress then Append(q, message)
    else if transmitOk then
      (Accept(q, message).(inFlight := message, inProgress := true, chunks := q.chunks + [message]), true)
    else Append(q.(inFlight := message), message)
  }

  // usbd_tfp_data_in
  function CompleteTransfer(q: Queue, transmitOk: bool): Queue { SendStorage(q.(inProgress := false), transmitOk) }

  function Step(q: Queue, e: Event): Queue {
    match e
    case Send(message, transmitOk) => SendMessage(q, message, transmitOk).0
    case Complete(transmitOk) => CompleteTransfer(q, transmitOk)
  }

  function Run(q: Queue, events: seq<Event>): Queue
    decreases |events|
  {
    if events == [] then q else Run(Step(q, events[0]), events[1..])
  }

  function Concat(parts: seq<seq<bv8>>): seq<bv8>
    decreases |parts|
  {
    if parts == [] then [] else Concat(parts[..|parts| - 1]) + parts[|parts| - 1]
  }

  lemma ConcatOne(parts: seq<seq<bv8>>, part: seq<bv8>)
    ensures Concat(parts + [part]) == Concat(parts) + part
  {
    assert (parts + [part])[..|parts|] == parts;
  }

  const EMPTY := Queue([], false, [], [], [])

  // Nothing is lost, doubled or reordered, and the buffer in flight is the last chunk handed over.
  predicate Inv(q: Queue) {
    Concat(q.chunks) + q.storage == Concat(q.accepted) && |q.storage| < BUFFER_SIZE &&
    (q.inProgress ==> |q.chunks| > 0 && q.inFlight == q.chunks[|q.chunks| - 1])
  }

  lemma SendStorageKeeps(q: Queue, transmitOk: bool)
    requires Inv(q)
    ensures Inv(SendStorage(q, transmitOk))
  {
    ConcatOne(q.chunks, q.storage);
    hide Concat;
  }

  lemma AppendKeeps(q: Queue, message: seq<bv8>)
    requires Inv(q)
    ensures Inv(Append(q, message).0)
  {
    ConcatOne(q.accepted, message);
    assert Concat(q.chunks) + (q.storage + message) == Concat(q.chunks) + q.storage + message;
    hide Concat;
  }

  lemma SendKeeps(q: Queue, message: seq<bv8>, transmitOk: bool)
    requires Inv(q)
    ensures Inv(SendMessage(q, message, transmitOk).0)
  {
    hide Append, SendStorage, Inv;
    AppendKeeps(q, message);
    AppendFacts(q, message);
    if q.storage != [] {
      SendStorageKeeps(Append(q, message).0, transmitOk);
    } else if !q.inProgress {
      DirectKeeps(q, message, transmitOk);
    }
  }

  lemma AppendFacts(q: Queue, message: seq<bv8>)
    ensures !Append(q, message).1 ==> Append(q, message).0 == q
  {}

  lemma DirectKeeps(q: Queue, message: seq<bv8>, transmitOk: bool)
    requires Inv(q) && q.storage == [] && !q.inProgress
    ensures Inv(SendMessage(q, message, transmitOk).0)
  {
    ConcatOne(q.chunks, message);
    ConcatOne(q.accepted, message);
    AppendKeeps(q.(inFlight := message), message);
    hide Concat;
  }

  lemma StepKeeps(q: Queue, e: Event)
    requires Inv(q)
    ensures Inv(Step(q, e))
  {
    hide Concat, SendMessage, SendStorage;
    match e
    case Send(message, transmitOk) => SendKeeps(q, message, transmitOk);
    case Complete(transmitOk) => SendStorageKeeps(q.(inProgress := false), transmitOk);
  }

  // On every run: the bytes handed to successful transmits followed by the storage are the accepted
  // messages in order.
  lemma {:induction false} RunKeeps(q: Queue, events: seq<Event>)
    requires Inv(q)
    ensures Inv(Run(q, events))
    decreases |events|
  {
    hide Inv, Step;
    if events != [] {
      StepKeeps(q, events[0]);
      RunKeeps(Step(q, events[0]), events[1..]);
    }
  }

  lemma SentInOrder(events: seq<Event>)
    ensures var q := Run(EMPTY, events);
            && Concat(q.chunks) + q.storage == Concat(q.accepted)
            && (q.inProgress ==> |q.chunks| > 0 && q.inFlight == q.chunks[|q.chunks| - 1])
  {
    RunKeeps(EMPTY, events);
  }

  // While a transfer is in progress only its completion touches the buffer in flight.
  lemma InFlightUntouched(q: Queue, e: Event)
    requires q.inProgress && !e.Complete?
    ensures Step(q, e).inFlight == q.inFlight && Step(q, e).inProgress && Step(q, e).chunks == q.chunks
  {}

  // A message is refused only when the storage cannot take it, and then nothing changes that matters:
  // neither storage nor what was handed over.
  lemma RefusedLeavesQueue(q: Queue, message: seq<bv8>, transmitOk: bool)
    ensures var (after, ok) := SendMessage(q, message, transmitOk);
            && (!ok ==>
                 !Fits(q, message) &&
                 after.storage == q.storage && after.chunks == q.chunks && after.accepted == q.accepted)
            && (ok ==> after.accepted == q.accepted + [message])
  {}

  // ----- What leaves ------------------------------------------------------------------------------------

  // A completed transfer hands over everything that was stored meanwhile as one chunk; without anything stored
  // the sender is idle afterwards.
  lemma CompletionSends(q: Queue, transmitOk: bool)
    ensures var after := Step(q, Complete(transmitOk));
            && after.accepted == q.accepted
            && (transmitOk && q.storage != [] ==>
                 after.chunks == q.chunks + [q.storage] && after.storage == [] &&
                 after.inProgress && after.inFlight == q.storage)
            && (!transmitOk || q.storage == [] ==>
                 after.chunks == q.chunks && after.storage == q.storage && !after.inProgress)
  {}

  // Every byte accepted on any run has been handed over after one more completion, and has left after two.
  lemma {:induction false} TwoCompletions(events: seq<Event>)
    ensures var once := Step(Run(EMPTY, events), Complete(true));
            var twice := Step(once, Complete(true));
            && Concat(once.chunks) == Concat(once.accepted) && once.accepted == Run(EMPTY, events).accepted
            && Concat(twice.chunks) == Concat(twice.accepted) && twice.accepted == once.accepted && !twice.inProgress
  {
    RunKeeps(EMPTY, events);
    var q := Run(EMPTY, events);
    hide Run, Concat, Step, Inv;
    StepKeeps(q, Complete(true));
    CompletionSends(q, true);
    CompletionSends(Step(q, Complete(true)), true);
    AllHandedOver(Step(q, Complete(true)));
  }

  lemma AllHandedOver(q: Queue)
    requires Inv(q) && q.storage == []
    ensures Concat(q.chunks) == Concat(q.accepted)
  {
    assert Concat(q.chunks) + q.storage == Concat(q.chunks);
    hide Concat;
  }

  // A message goes out together with whatever is stored exactly when nothing is in progress, the hardware takes
  // it, and it still fits behind what is stored; and then at once.
  lemma SendGoesOut(q: Queue, message: seq<bv8>, transmitOk: bool)
    ensures var after := Step(q, Send(message, transmitOk));
            && (after.chunks != q.chunks <==> !q.inProgress && transmitOk && (q.storage == [] || Fits(q, message)))
            && (after.chunks != q.chunks ==>
                 after.chunks == q.chunks + [q.storage + message] && after.storage == [] &&
                 after.inProgress && after.inFlight == q.storage + message)
  {
    assert [] + message == message;
    assert q.chunks + [message] != q.chunks && q.chunks + [q.storage + message] != q.chunks;
  }

  // With nothing in progress no completion will come, and a message that does not fit pushes nothing: messages
  // that are all too long for the rest of the storage leave it where it is, though the hardware would take it.
  lemma {:induction false} StorageStays(q: Queue, events: seq<Event>)
    requires !q.inProgress && q.storage != []
    requires forall i :: 0 <= i < |events| ==> events[i].Send? && !Fits(q, events[i].message)
    ensures Run(q, events) == q
    decreases |events|
  {
    if events != [] {
      StorageStays(q, events[1..]);
    }
  }

  // ----- The queue in place -----------------------------------------------------------------------------

  class UsbSender {
    const inBuffer: array<bv8>
    var inBufferLength: nat
    var transferInProgress: bool
    const inBufferStorage: array<bv8>
    var storageLength: nat
    ghost var chunks: seq<seq<bv8>>
    ghost var accepted: seq<seq<bv8>>

    ghost predicate Valid()
      reads this, inBuffer, inBufferStorage
    {
      inBuffer != inBufferStorage && inBuffer.Length == inBufferStorage.Length == BUFFER_SIZE &&
      inBufferLength <= BUFFER_SIZE && storageLength < BUFFER_SIZE && Inv(View())
    }

    ghost function View(): Queue
      reads this, inBuffer, inBufferStorage
      requires inBufferLength <= inBuffer.Length && storageLength <= inBufferStorage.Length
    {
      Queue(inBuffer[..inBufferLength], transferInProgress, inBufferStorage[..storageLength], chunks, accepted)
    }

    constructor ()
      ensures Valid() && View() == EMPTY && fresh(inBuffer) && fresh(inBufferStorage)
    {
      inBuffer := new bv8[BUFFER_SIZE](i => 0);
      inBufferStorage := new bv8[BUFFER_SIZE](i => 0);
      inBufferLength, storageLength, transferInProgress, chunks, accepted := 0, 0, false, [], [];
    }

    // usb_send_storage
    method TrySendStorage(transmitOk: bool)
      requires Valid()
      modifies this, inBuffer
      ensures Valid() && View() == old(SendStorage(View(), transmitOk))
    {
      hide Inv;
      SendStorageKeeps(View(), transmitOk);
      if storageLength != 0 && !transferInProgress {
        CopyTo(inBuffer, 0, inBufferStorage[..storageLength]);
        inBufferLength := storageLength;
        assert inBuffer[..inBufferLength] == inBufferStorage[..storageLength];
        transferInProgress := true;
        if transmitOk {
          chunks := chunks + [inBuffer[..inBufferLength]];
          storageLength := 0;
          return;
        }
        transferInProgress := false;
      }
    }

    // usb_append_to_storage
    method AppendToStorage(data: seq<bv8>) returns (ok: bool)
      requires Valid()
      modifies this, inBufferStorage
      ensures Valid() && (View(), ok) == old(Append(View(), data))
    {
      hide Inv;
      AppendKeeps(View(), data);
      if storageLength + |data| < BUFFER_SIZE {
        ghost var before := inBufferStorage[..storageLength];
        CopyTo(inBufferStorage, storageLength, data);
        assert inBufferStorage[..storageLength + |data|] == before + data;
        storageLength := storageLength + |data|;
        accepted := accepted + [data];
        return true;
      }
      return false;
    }

    // usb_send; a message is at most as long as the buffer.
    method Send(data: seq<bv8>, transmitOk: bool) returns (ok: bool)
      requires Valid() && |data| <= BUFFER_SIZE
      modifies this, inBuffer, inBufferStorage
      ensures Valid() && (View(), ok) == old(SendMessage(View(), data, transmitOk))
    {
      hide Inv, Append, SendStorage;
      AppendFacts(View(), data);
      if storageLength > 0 {
        ok := AppendToStorage(data);
        if ok {
          TrySendStorage(transmitOk);
        }
        return ok;
      }
      assert View().storage == [];
      if transferInProgress {
        ok := AppendToStorage(data);
        return ok;
      }
      SendKeeps(View(), data, transmitOk);
      IdleBuffer(View(), data);
      CopyTo(inBuffer, 0, data);
      inBufferLength := |data|;
      assert inBuffer[..inBufferLength] == data;
      transferInProgress := true;
      if transmitOk {
        chunks := chunks + [data];
        accepted := accepted + [data];
        return true;
      }
      transferInProgress := false;
      ok := AppendToStorage(data);
    }

    // usbd_tfp_data_in
    method DataIn(transmitOk: bool)
      requires Valid()
      modifies this, inBuffer
      ensures Valid() && View() == old(CompleteTransfer(View(), transmitOk))
    {
      hide Inv, SendStorage;
      EndOfTransfer(View());
      transferInProgress := false;
      TrySendStorage(transmitOk);
    }
  }

  lemma IdleBuffer(q: Queue, data: seq<bv8>)
    requires Inv(q) && !q.inProgress
    ensures Inv(q.(inFlight := data))
  {}

  lemma EndOfTransfer(q: Queue)
    requires Inv(q)
    ensures Inv(q.(inProgress := false))
  {}

  // memcpy
  method CopyTo(target: array<bv8>, at: nat, data: seq<bv8>)
    requires at + |data| <= target.Length
    modifies target
    ensures target[at..at + |data|] == data
    ensures target[..at] == old(target[..at]) && target[at + |data|..] == old(target[at + |data|..])
  {
    for i := 0 to |data|
      invariant target[at..at + i] == data[..i]
      invariant target[..at] == old(target[..at]) && target[at + |data|..] == old(target[at + |data|..])
    {
      target[at + i] := data[i];
    }
  }
}
