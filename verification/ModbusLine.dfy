/** The bus together with what has happened on it: the request in flight, what was clocked out, what was
    noted and checked, and how often a failure was reported. */
module ModbusLine {
  import opened Wrappers
  import opened Ringbuffers
  import opened Clock
  import opened Modbus
  import Crc16

  datatype Line = Line(
    bus: Bus,
    clock: nat,              // true time in milliseconds, from which the time stamps are cut
    frame: seq<bv8>,         // the request in flight as it was queued
    sent: seq<bv8>,          // its bytes handed to the hardware so far
    raised: nat,             // failures reported for it
    timeouts: nat,           // since boot: increments of the timeout, checksum and frame-size counters
    checksums: nat,
    tooBig: nat,
    lastReceive: nat,        // when receive activity was last seen
    sample: seq<bv8>,        // the received bytes when their number was last noted
    settled: bool,           // the line went quiet after that
    quiet: int,              // and had then been quiet for this long
    validated: seq<bv8>)     // the received bytes that last passed all checks

  function Now(l: Line): nat { Stamp(l.clock) }

  // ----- Events -----------------------------------------------------------------------------------

  function Advance(l: Line, ms: nat): Line { l.(clock := l.clock + ms) }

  function OnRxInterrupt(l: Line, bytes: seq<bv8>): (after: Line)
    requires BusValid(l.bus)
    ensures after.clock == l.clock
  {
    l.(bus := RxInterrupt(l.bus, bytes, Now(l)), lastReceive := l.clock)
  }

  function OnTxInterrupt(l: Line, room: nat): (after: Line)
    requires BusValid(l.bus)
    ensures after.clock == l.clock
  {
    l.(bus := TxInterrupt(l.bus, room), sent := l.sent + Transmitted(l.bus, room))
  }

  function OnDrain(l: Line, bytes: seq<bv8>): (after: Line)
    requires BusValid(l.bus)
    ensures after.clock == l.clock
  {
    l.(bus := Drain(l.bus, bytes, Now(l)), lastReceive := if bytes == [] then l.lastReceive else l.clock)
  }

  predicate Failure(event: WireEvent) {
    event.Expired? || event.TooBig? || event.BadChecksum? || event.BadResponse?
  }

  function One(b: bool): nat { if b then 1 else 0 }

  function OnEvent(l: Line, event: WireEvent): (after: Line)
    requires BusValid(l.bus)
    ensures after.clock == l.clock
  {
    l.(bus := Handle(l.bus, event),
       raised := l.raised + One(Failure(event)),
       timeouts := l.timeouts + One(Failure(event)),
       checksums := l.checksums + One(event.BadChecksum?),
       tooBig := l.tooBig + One(event.TooBig?),
       sample := if event.Sampled? then l.bus.rx.memory[..Used(l.bus.rx)] else l.sample,
       settled := event.Settled? || (l.settled && !event.Sampled?),
       quiet := if event.Settled? then l.clock - l.lastReceive else l.quiet,
       validated := if event.Answered? then l.sample else l.validated)
  }

  function OnRs485Tick(l: Line, bytes: seq<bv8>): (after: Line)
    requires BusValid(l.bus) && l.bus.lastLength <= l.bus.rx.size
    ensures after.clock == l.clock
  {
    var d := OnDrain(l, bytes);
    if d.bus.mode == Plain then d else OnEvent(d, EventOf(d.bus, Now(d)))
  }

  function OnClear(l: Line): (after: Line)
    ensures after.clock == l.clock
  {
    l.(bus := ClearRequest(l.bus), frame := [], sent := [], raised := 0, sample := [], settled := false,
       validated := [])
  }

  function OnSend(l: Line, payload: seq<bv8>, responseLength: nat): (after: Line)
    requires BusValid(l.bus)
    ensures after.clock == l.clock
  {
    var bus := Send(l.bus, payload, responseLength, Now(l));
    l.(bus := bus, frame := Items(bus.tx), sent := [], raised := 0)
  }

  // ----- What holds at all times ------------------------------------------------------------------

  predicate Shape(l: Line) {
    BusValid(l.bus) && l.bus.mode == Master && l.bus.rx.start == 0 && l.bus.lastLength <= l.bus.rx.end &&
    l.bus.request.state != Processing && l.lastReceive <= l.clock && l.bus.time4Chars == Stamp(l.lastReceive)
  }

  // A request can only be built on an empty transmit ring at offset 0 and with no flag left over.
  predicate ReadyIsClean(l: Line) {
    l.bus.request.state == Ready ==>
      !l.bus.request.cbInvoke && !l.bus.request.timedOut && l.bus.wire == Idle &&
      l.bus.tx.start == 0 && l.bus.tx.end == 0 && l.bus.lastLength == 0
  }

  // A failure is reported at most once for each request and stays reported.
  predicate FlagsAgree(l: Line) {
    l.raised == One(l.bus.request.timedOut) &&
    (l.bus.request.timedOut ==> l.bus.request.cbInvoke && l.bus.request.state == Waiting)
  }

  // The transmit ring is the checksummed frame, of which the part before `start` has been clocked out.
  predicate FrameHeld(l: Line)
    requires Shape(l)
  {
    l.bus.request.state == Waiting ==>
      && |l.frame| >= 4 && l.frame[0] != 0 && Crc16.Accepted(l.frame)
      && l.bus.tx.start <= l.bus.tx.end == |l.frame|
      && l.bus.tx.memory[..|l.frame|] == l.frame
      && l.sent == l.frame[..l.bus.tx.start]
  }

  // Between noting how many bytes arrived and checking them, the line was quiet for the prescribed time.
  predicate SampleHeld(l: Line)
    requires Shape(l)
  {
    l.bus.rx.memory[..l.bus.lastLength] == l.sample &&
    (l.bus.wire == Transmitting ==> l.bus.lastLength == 0) &&
    (l.bus.wire == Idle && l.bus.lastLength > 0 ==> l.settled) &&
    (l.settled ==> l.quiet >= WAIT_AFTER_READ_MS)
  }

  predicate ValidReply(reply: seq<bv8>, frame: seq<bv8>)
    requires |frame| >= 2
  {
    Crc16.Accepted(reply) && |reply| >= 2 && reply[0] == frame[0] &&
    (reply[1] == frame[1] || IsExceptionOf(reply[1], frame[1]))
  }

  // A response without the timed-out flag is backed by received bytes that passed every check.
  predicate ReplyBacked(l: Line)
    requires Shape(l)
  {
    l.bus.request.state == Waiting && l.bus.request.cbInvoke && !l.bus.request.timedOut ==>
      && |l.frame| >= 2 && ValidReply(l.validated, l.frame)
      && |l.validated| <= l.bus.rx.end && l.bus.rx.memory[..|l.validated|] == l.validated
  }

  predicate Counted(l: Line) {
    l.checksums + l.tooBig <= l.timeouts &&
    l.bus.counters.checksum == l.checksums % WORD && l.bus.counters.frameTooBig == l.tooBig % WORD
  }

  predicate Inv(l: Line) {
    Shape(l) && ReadyIsClean(l) && FlagsAgree(l) && FrameHeld(l) && SampleHeld(l) && ReplyBacked(l) && Counted(l)
  }

  // ----- Every event keeps it ---------------------------------------------------------------------

  lemma Boot(bus: Bus, clock: nat)
    requires Boots(bus) && bus.mode == Master && bus.time4Chars == Stamp(clock)
    ensures Inv(Line(bus, clock, [], [], 0, 0, 0, 0, clock, [], false, 0, []))
  {}

  lemma AdvanceKeeps(l: Line, ms: nat)
    requires Inv(l)
    ensures Inv(Advance(l, ms))
  {}

  // Received bytes are appended; bytes already received stay where they are.
  lemma {:induction false} ReceiveAppends(rx: Ring, bytes: seq<bv8>)
    requires Valid(rx) && rx.start == 0
    ensures var after := ReceiveAll(rx, bytes);
            rx.end <= after.end && after.memory[..rx.end] == rx.memory[..rx.end]
    decreases |bytes|
  {
    if bytes != [] {
      var next := RxEnqueue(rx, bytes[0]);
      RxEnqueueRefines(rx, bytes[0]);
      assert rx.end <= next.end && next.memory[..rx.end] == rx.memory[..rx.end];
      ReceiveAppends(next, bytes[1..]);
      var after := ReceiveAll(next, bytes[1..]);
      assert after.memory[..rx.end] == after.memory[..next.end][..rx.end] == next.memory[..next.end][..rx.end];
    }
  }

  lemma ReceivedKeeps(l: Line, bytes: seq<bv8>)
    requires Inv(l)
    ensures Inv(OnRxInterrupt(l, bytes))
  {
    hide Crc16.Accepted, IsExceptionOf;
    ReceiveAppends(l.bus.rx, bytes);
    var rx, after := l.bus.rx, ReceiveAll(l.bus.rx, bytes);
    assert forall i :: 0 <= i < rx.end ==> after.memory[..rx.end][i] == rx.memory[..rx.end][i];
    assert after.memory[..l.bus.lastLength] == rx.memory[..l.bus.lastLength];
    if |l.validated| <= rx.end {
      assert after.memory[..|l.validated|] == rx.memory[..|l.validated|];
    }
  }

  lemma DrainKeeps(l: Line, bytes: seq<bv8>)
    requires Inv(l)
    ensures Inv(OnDrain(l, bytes))
  {
    if bytes != [] {
      ReceivedKeeps(l, bytes);
      assert OnDrain(l, bytes) == OnRxInterrupt(l, bytes);
    } else {
      assert OnDrain(l, bytes) == l;
    }
    hide *;
  }

  lemma TransmitKeeps(l: Line, room: nat)
    requires Inv(l)
    ensures Inv(OnTxInterrupt(l, room))
  {
    hide Crc16.Accepted, IsExceptionOf;
    var tx, n := l.bus.tx, Min(Used(l.bus.tx), room);
    RemoveRefines(tx, room);
    if l.bus.request.state == Waiting {
      assert Items(tx)[..n] == tx.memory[tx.start..tx.start + n];
      forall i | tx.start <= i < tx.start + n ensures tx.memory[i] == l.frame[i] {
        assert tx.memory[..|l.frame|][i] == l.frame[i];
      }
      assert l.frame[..tx.start] + tx.memory[tx.start..tx.start + n] == l.frame[..tx.start + n];
    }
  }

  lemma FailCounts(l: Line, event: WireEvent)
    requires BusValid(l.bus) && Counted(l) && Failure(event)
    ensures Counted(OnEvent(l, event))
  {
    BumpCounts(l.checksums);
    BumpCounts(l.tooBig);
    hide Bump;
  }

  lemma BumpCounts(n: nat)
    ensures Bump(n % WORD) == (n + 1) % WORD
  {}

  lemma FailKeeps(l: Line, event: WireEvent)
    requires Inv(l) && Failure(event) && l.bus.request.state == Waiting && !l.bus.request.timedOut
    ensures Inv(OnEvent(l, event))
  {
    hide Crc16.Accepted, ValidReply, Counted;
    FailCounts(l, event);
    var after := OnEvent(l, event);
    assert after.bus == l.bus.(counters := after.bus.counters, request := after.bus.request);
    assert Shape(after) && SampleHeld(after) && FrameHeld(after);
  }

  lemma OtherEventKeeps(l: Line, event: WireEvent)
    requires Inv(l) && (event.Sampled? || event.Settled? || event.Sent? || event.Nothing?)
    requires event.Sampled? ==> l.bus.wire == Idle && l.bus.request.state == Waiting
    requires event.Settled? ==> l.bus.wire == Receiving && l.clock - l.lastReceive >= WAIT_AFTER_READ_MS
    requires event.Sent? ==> l.bus.wire == Transmitting
    ensures Inv(OnEvent(l, event))
  {
    hide Crc16.Accepted, IsExceptionOf;
    if event.Sent? && l.bus.request.state == Waiting {
      assert l.bus.tx.memory[0] == l.bus.tx.memory[..|l.frame|][0] == l.frame[0];
    }
  }

  lemma Prefix(memory: seq<bv8>, part: seq<bv8>)
    requires 2 <= |part| <= |memory| && memory[..|part|] == part
    ensures memory[0] == part[0] && memory[1] == part[1]
  {}

  // What passed the checks is the sample, and the checked bytes are those of the frame in flight.
  lemma SampleAnswers(l: Line)
    requires Shape(l) && FrameHeld(l) && SampleHeld(l) && EventOf(l.bus, Now(l)) == Answered
    ensures l.bus.request.state == Waiting && l.bus.wire == Idle && |l.frame| >= 2
    ensures !l.bus.request.timedOut ==> ValidReply(l.sample, l.frame)
  {
    hide Crc16.Accepted, IsExceptionOf;
    if !l.bus.request.timedOut {
      assert ChecksumOk(l.bus) && ResponseOk(l.bus) && Crc16.Accepted(l.sample);
      AcceptedLength(l.sample);
      Prefix(l.bus.rx.memory, l.sample);
      Prefix(l.bus.tx.memory, l.frame);
    }
  }

  lemma AcceptedLength(frame: seq<bv8>)
    requires Crc16.Accepted(frame)
    ensures |frame| >= 2
  {}

  lemma AnsweredKeeps(l: Line)
    requires Inv(l) && EventOf(l.bus, Now(l)) == Answered
    ensures Inv(OnEvent(l, Answered))
  {
    hide Crc16.Accepted, IsExceptionOf, ValidReply, EventOf;
    SampleAnswers(l);
  }

  lemma EventFacts(l: Line)
    requires Shape(l)
    ensures var event := EventOf(l.bus, Now(l));
            && (Failure(event) ==> l.bus.request.state == Waiting && !l.bus.request.timedOut && l.bus.wire == Idle)
            && (event.Sampled? || event.Answered? ==> l.bus.wire == Idle && l.bus.request.state == Waiting)
            && (event.Settled? ==> l.bus.wire == Receiving && l.clock - l.lastReceive >= WAIT_AFTER_READ_MS)
            && (event.Sent? ==> l.bus.wire == Transmitting)
  {
    if EventOf(l.bus, Now(l)).Settled? {
      ElapsedIsReal(l.clock, l.lastReceive, WAIT_AFTER_READ_MS);
    }
  }

  lemma EventKeeps(l: Line)
    requires Inv(l)
    ensures Inv(OnEvent(l, EventOf(l.bus, Now(l))))
  {
    assert Shape(l);
    hide OnEvent, EventOf, Inv, Shape;
    EventFacts(l);
    var event := EventOf(l.bus, Now(l));
    if Failure(event) {
      FailKeeps(l, event);
    } else if event.Answered? {
      AnsweredKeeps(l);
    } else {
      OtherEventKeeps(l, event);
    }
  }

  lemma Rs485TickKeeps(l: Line, bytes: seq<bv8>)
    requires Inv(l)
    ensures Inv(OnRs485Tick(l, bytes))
  {
    DrainKeeps(l, bytes);
    EventKeeps(OnDrain(l, bytes));
    hide Inv, OnDrain, OnEvent, EventOf, Shape;
  }

  lemma ClearKeeps(l: Line)
    requires Inv(l)
    ensures Inv(OnClear(l)) && OnClear(l).bus.request.state == Ready
  {}

  // Storing bytes in a ring that starts at 0 and has room for them.
  lemma {:induction false} StoreAppends(tx: Ring, bytes: seq<bv8>)
    requires Valid(tx) && tx.start == 0 && tx.end + |bytes| < tx.size
    ensures var after := Store(tx, bytes);
            after.end == tx.end + |bytes| && after.memory[..after.end] == tx.memory[..tx.end] + bytes
    decreases |bytes|
  {
    if bytes == [] {
      assert tx.memory[..tx.end] + bytes == tx.memory[..tx.end];
    } else {
      var next := Add(tx, bytes[0]).0;
      AddRefines(tx, bytes[0]);
      assert next.end == tx.end + 1 && next.memory[..next.end] == tx.memory[..tx.end] + [bytes[0]];
      StoreAppends(next, bytes[1..]);
      assert tx.memory[..tx.end] + [bytes[0]] + bytes[1..] == tx.memory[..tx.end] + bytes;
    }
  }

  // On an empty ring at offset 0 the queued frame is the payload with its checksum, nothing more and nothing less.
  lemma SentFrame(b: Bus, payload: seq<bv8>, responseLength: nat, now: nat)
    requires BusValid(b) && b.tx.start == 0 && b.tx.end == 0 && |payload| + 2 < b.tx.size
    ensures var tx := Send(b, payload, responseLength, now).tx;
            && Valid(tx) && tx.size == b.tx.size && tx.start == 0 && tx.end == |payload| + 2
            && tx.memory[..tx.end] == Crc16.WithCrc(payload) && Items(tx) == Crc16.WithCrc(payload)
  {
    hide Crc16.Crc, Crc16.LowByte, Crc16.HighByte;
    var stored := Store(b.tx, payload);
    StoreAppends(b.tx, payload);
    assert b.tx.memory[..0] + payload == payload;
    assert stored.memory[..Used(stored)] == payload;
    var crc := Crc16.Crc(payload);
    StoreAppends(stored, [Crc16.LowByte(crc), Crc16.HighByte(crc)]);
    var tx := Send(b, payload, responseLength, now).tx;
    assert Items(tx) == tx.memory[..tx.end];
  }

  lemma SendKeeps(l: Line, payload: seq<bv8>, responseLength: nat)
    requires Inv(l) && l.bus.request.state == Ready
    requires 2 <= |payload| && |payload| + 2 < l.bus.tx.size && payload[0] != 0
    ensures var after := OnSend(l, payload, responseLength);
            Inv(after) && after.bus.request.state == Waiting && after.frame == Crc16.WithCrc(payload)
  {
    SentFrame(l.bus, payload, responseLength, Now(l));
    Crc16.OwnFrameAccepted(payload);
    hide Store, AddChecksum, Crc16.Accepted, Crc16.Crc, Crc16.LowByte, Crc16.HighByte;
    var after := OnSend(l, payload, responseLength);
    assert after.frame[..0] == [];
    assert after.bus.tx.memory[..|after.frame|] == after.frame;
  }

  function OnNoteException(l: Line): (after: Line)
    requires BusValid(l.bus)
    ensures after.clock == l.clock
  {
    l.(bus := NoteException(l.bus))
  }

  function OnResetCounters(l: Line): (after: Line)
    ensures after.clock == l.clock
  {
    l.(bus := ResetCounters(l.bus))
  }

  lemma CountersKeep(l: Line)
    requires Inv(l)
    ensures Inv(OnNoteException(l)) && Inv(OnResetCounters(l))
  {
    hide Crc16.Accepted, IsExceptionOf, Items;
  }

  // ----- What follows -----------------------------------------------------------------------------

  // A frame is judged only after the line had been quiet for at least five milliseconds, and is then
  // everything that was received: no byte was stored since the length was noted.
  lemma CheckedWhenQuiet(l: Line, bytes: seq<bv8>)
    requires Inv(l)
    requires var d := OnDrain(l, bytes);
             EventOf(d.bus, Now(d)) in {TooBig, BadChecksum, BadResponse, Answered}
    ensures var d := OnDrain(l, bytes);
            && d.settled && d.quiet >= WAIT_AFTER_READ_MS
            && d.bus.rx.memory[..Used(d.bus.rx)] == d.sample == l.sample
  {
    DrainKeeps(l, bytes);
    assert OnDrain(l, bytes).sample == l.sample;
  }

  // A response is handed over only if it came from the addressed slave, for the asked function, and
  // with a correct checksum, however the checks are ordered and whatever is received afterwards.
  lemma AnsweredIsValid(l: Line)
    requires Inv(l) && l.bus.request.state == Waiting && l.bus.request.cbInvoke && !l.bus.request.timedOut
    ensures exists n: nat :: n <= l.bus.rx.end && ValidReply(l.bus.rx.memory[..n], l.frame)
  {
    assert ValidReply(l.bus.rx.memory[..|l.validated|], l.frame);
  }

  // In one tick of the bus the checksum and frame-size counters never grow without the timeout counter.
  lemma CountersPaired(l: Line, bytes: seq<bv8>)
    requires Inv(l)
    ensures var after := OnRs485Tick(l, bytes);
            && (after.checksums - l.checksums) + (after.tooBig - l.tooBig) <= after.timeouts - l.timeouts <= 1
            && (after.bus.counters.timeout == if after.timeouts == l.timeouts then l.bus.counters.timeout
                                              else (l.bus.counters.timeout + 1) % WORD)
  {
    hide Crc16.Accepted, IsExceptionOf, ReceiveAll, Elapsed;
  }
}
