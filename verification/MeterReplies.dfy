/** What a reply brings about: received in time and followed by quiet, it reaches the driver as good exactly when
    it is valid. */
module MeterReplies {
  import opened Wrappers
  import opened Clock
  import opened Modbus
  import opened ModbusLine
  import opened MeterScan
  import opened MeterDrivers
  import opened Requests
  import opened MeterRuns
  import opened MeterAnswers
  import opened MeterProgress
  import Crc16
  import R = Ringbuffers

  // ----- Judging ----------------------------------------------------------------------------------

  // Everything received so far.
  function Received(l: Line): seq<bv8>
    requires l.bus.rx.end <= |l.bus.rx.memory|
  {
    l.bus.rx.memory[..l.bus.rx.end]
  }

  lemma ReceivedFits(l: Line)
    requires Inv(l)
    ensures BusValid(l.bus) && l.bus.lastLength <= l.bus.rx.size && l.bus.rx.start == 0
    ensures l.bus.rx.end < l.bus.rx.size == |l.bus.rx.memory| && R.Used(l.bus.rx) == l.bus.rx.end
    ensures l.bus.request.state == Waiting ==> |l.frame| >= 2
  {
    hide Crc16.Accepted, ValidReply;
  }

  // A reply that the bus may hand over.
  predicate Acceptable(reply: seq<bv8>, frame: seq<bv8>)
    requires |frame| >= 2
  {
    |reply| <= 256 && ValidReply(reply, frame)
  }

  // The request waits for its reply: no timeout yet and nothing handed over.
  predicate Awaits(l: Line) {
    l.bus.request.state == Waiting && !l.bus.request.cbInvoke && !l.bus.request.timedOut
  }

  predicate InTime(l: Line) { !Elapsed(Now(l), l.bus.request.timeRef, l.bus.timeoutPeriod) }

  // With the line idle, its timeout not elapsed and everything received sampled, a tick of the bus hands the reply
  // over without the timed-out flag exactly when it is acceptable, with the flag exactly when it is not, and hands
  // nothing over when nothing was received.
  lemma JudgedExactly(l: Line)
    requires Inv(l) && Awaits(l) && InTime(l) && l.bus.wire == Idle && l.bus.lastLength == l.bus.rx.end
    ensures BusValid(l.bus) && l.bus.lastLength <= l.bus.rx.size && l.bus.rx.end <= |l.bus.rx.memory| && |l.frame| >= 2
    ensures var after, reply := OnRs485Tick(l, []).bus.request, Received(l);
            && after.state == Waiting
            && (after.cbInvoke && !after.timedOut <==> Acceptable(reply, l.frame))
            && (after.timedOut <==> reply != [] && !Acceptable(reply, l.frame))
            && (after.cbInvoke <==> reply != [])
            && (after.cbInvoke && !after.timedOut ==> OnRs485Tick(l, []).validated == reply)
  {
    hide Crc16.Accepted, Elapsed;
    ReceivedFits(l);
    var b, reply := l.bus, Received(l);
    assert b.rx.memory[..b.lastLength] == reply;
    Prefix(b.tx.memory, l.frame);
    if |reply| >= 2 {
      Prefix(b.rx.memory, reply);
    }
    assert Crc16.Accepted(reply) ==> |reply| >= 2 by {
      if Crc16.Accepted(reply) {
        AcceptedLength(reply);
      }
    }
  }

  // What is counted then: a timeout with every reply that is not acceptable, the frame size alone if there are too
  // many bytes, and otherwise the checksum if that is wrong.
  lemma FailuresAreCounted(l: Line)
    requires Inv(l) && Awaits(l) && InTime(l) && l.bus.wire == Idle && l.bus.lastLength == l.bus.rx.end
    ensures BusValid(l.bus) && l.bus.lastLength <= l.bus.rx.size && l.bus.rx.end <= |l.bus.rx.memory| && |l.frame| >= 2
    ensures var before, after, reply := l.bus.counters, OnRs485Tick(l, []).bus.counters, Received(l);
            after == before.(
              timeout := if reply == [] || Acceptable(reply, l.frame) then before.timeout else Bump(before.timeout),
              frameTooBig := if |reply| > 256 then Bump(before.frameTooBig) else before.frameTooBig,
              checksum := if 0 < |reply| <= 256 && !Crc16.Accepted(reply) then Bump(before.checksum)
                          else before.checksum)
  {
    hide Crc16.Accepted, Elapsed;
    ReceivedFits(l);
    var b, reply := l.bus, Received(l);
    assert b.rx.memory[..b.lastLength] == reply;
    Prefix(b.tx.memory, l.frame);
    if |reply| >= 2 {
      Prefix(b.rx.memory, reply);
    }
    if Crc16.Accepted(reply) {
      AcceptedLength(reply);
    }
  }

  // The same of every station that bus and meter reach.
  lemma ReplyJudgedExactly(s: Station, t: Tables)
    requires TablesOk(t) && Reached(s, t) && Awaits(s.line) && InTime(s.line) && s.line.bus.wire == Idle
    requires s.line.bus.lastLength == s.line.bus.rx.end
    ensures StationInv(s, t) && s.line.bus.rx.end <= |s.line.bus.rx.memory| && |s.line.frame| >= 2
    ensures var after, reply := Step(s, BusTick([]), t).line.bus.request, Received(s.line);
            && (after.cbInvoke && !after.timedOut <==> Acceptable(reply, s.line.frame))
            && (after.timedOut <==> reply != [] && !Acceptable(reply, s.line.frame))
  {
    hide Reached, TablesOk, StationInv, Inv, Acceptable, InTime, OnRs485Tick, BusValid;
    EveryRun(s, t);
    StationLength(s, t);
    BusTickIs(s, t);
    JudgedExactly(s.line);
  }

  // ----- While the reply comes in -----------------------------------------------------------------

  // All bytes that fit are received, in order.
  lemma {:induction false} AllReceived(rx: R.Ring, bytes: seq<bv8>)
    requires R.Valid(rx) && rx.start == 0 && rx.end + |bytes| < rx.size
    ensures var after := ReceiveAll(rx, bytes);
            after.end == rx.end + |bytes| && after.memory[..after.end] == rx.memory[..rx.end] + bytes
    decreases |bytes|
  {
    if bytes == [] {
      assert rx.memory[..rx.end] + bytes == rx.memory[..rx.end];
    } else {
      var next := R.RxEnqueue(rx, bytes[0]);
      R.RxEnqueueRefines(rx, bytes[0]);
      assert next.end == rx.end + 1 && next.memory[..next.end] == rx.memory[..rx.end] + [bytes[0]];
      AllReceived(next, bytes[1..]);
      assert rx.memory[..rx.end] + [bytes[0]] + bytes[1..] == rx.memory[..rx.end] + bytes;
    }
  }

  // This part of a reply has been received, and nothing has been judged yet.
  predicate Gathering(l: Line, part: seq<bv8>) {
    Inv(l) && Awaits(l) && l.bus.rx.end == |part| <= |l.bus.rx.memory| && Received(l) == part &&
    l.bus.wire != Transmitting && (l.bus.wire == Receiving ==> part != []) &&
    (l.bus.wire == Idle ==> part == [] || l.bus.lastLength < |part|)
  }

  // The request in flight and its time.
  predicate SameAsked(l: Line, after: Line) {
    after.frame == l.frame && after.bus.request.timeRef == l.bus.request.timeRef &&
    after.bus.timeoutPeriod == l.bus.timeoutPeriod && after.bus.rx.size == l.bus.rx.size
  }

  lemma RxGathers(l: Line, part: seq<bv8>, bytes: seq<bv8>)
    requires Gathering(l, part) && |part + bytes| < l.bus.rx.size
    ensures BusValid(l.bus)
    ensures var after := OnRxInterrupt(l, bytes);
            && Gathering(after, part + bytes) && SameAsked(l, after) && after.lastReceive == after.clock == l.clock
            && after.bus.wire == l.bus.wire
  {
    hide Crc16.Accepted, IsExceptionOf, ValidReply, ReceiveAll;
    ReceivedFits(l);
    ReceivedKeeps(l, bytes);
    AllReceived(l.bus.rx, bytes);
    hide Inv;
  }

  lemma TxGathers(l: Line, part: seq<bv8>, room: nat)
    requires Gathering(l, part)
    ensures BusValid(l.bus)
    ensures var after := OnTxInterrupt(l, room);
            && Gathering(after, part) && SameAsked(l, after) && after.lastReceive == l.lastReceive
            && after.clock == l.clock
  {
    ReceivedFits(l);
    TransmitKeeps(l, room);
    hide Inv, R.Remove, R.Items, BusValid;
  }

  lemma PassGathers(l: Line, part: seq<bv8>, ms: nat)
    requires Gathering(l, part)
    ensures var after := Advance(l, ms);
            && Gathering(after, part) && SameAsked(l, after) && after.lastReceive == l.lastReceive
  {
    AdvanceKeeps(l, ms);
    hide Inv;
  }

  // A tick notes that bytes have come in; it waits while the line is not quiet.
  lemma SampleGathers(l: Line, part: seq<bv8>)
    requires Gathering(l, part) && InTime(l)
    requires l.bus.wire == Receiving ==> !Elapsed(Now(l), l.bus.time4Chars, WAIT_AFTER_READ_MS)
    ensures BusValid(l.bus) && l.bus.lastLength <= l.bus.rx.size
    ensures var after := OnRs485Tick(l, []);
            && Gathering(after, part) && SameAsked(l, after) && after.lastReceive == l.lastReceive
            && after.clock == l.clock
  {
    ReceivedFits(l);
    Rs485TickKeeps(l, []);
    hide Inv, Elapsed, ChecksumOk, ResponseOk, BusValid;
  }

  lemma DrainThenTick(l: Line, bytes: seq<bv8>)
    requires Inv(l) && bytes != []
    ensures BusValid(l.bus) && l.bus.lastLength <= l.bus.rx.size
    ensures var d := OnRxInterrupt(l, bytes);
            && BusValid(d.bus) && d.bus.lastLength <= d.bus.rx.size
            && OnRs485Tick(l, bytes) == OnRs485Tick(d, [])
  {
    ReceivedFits(l);
    ReceivedKeeps(l, bytes);
    ReceivedFits(OnRxInterrupt(l, bytes));
    hide Inv, ReceiveAll, EventOf;
  }

  // With the line not quiet for long enough; bytes may just have come in.
  lemma TickGathers(l: Line, part: seq<bv8>, bytes: seq<bv8>)
    requires Gathering(l, part) && InTime(l) && |part + bytes| < l.bus.rx.size
    requires part != [] ==> l.clock < l.lastReceive + WAIT_AFTER_READ_MS
    ensures BusValid(l.bus) && l.bus.lastLength <= l.bus.rx.size
    ensures var after := OnRs485Tick(l, bytes);
            && Gathering(after, part + bytes) && SameAsked(l, after) && after.clock == l.clock
            && after.lastReceive == if bytes == [] then l.lastReceive else l.clock
  {
    hide Elapsed, OnRs485Tick, BusValid, InTime;
    ReceivedFits(l);
    StampOf(l);
    if bytes == [] {
      assert part + bytes == part;
      Quiet(l);
      SampleGathers(l, part);
    } else {
      DrainThenTick(l, bytes);
      RxGathers(l, part, bytes);
      var d := OnRxInterrupt(l, bytes);
      StampOf(d);
      Quiet(d);
      StillInTime(l, d);
      SampleGathers(d, part + bytes);
    }
  }

  lemma StampOf(l: Line)
    requires Inv(l)
    ensures l.bus.time4Chars == Stamp(l.lastReceive) && l.lastReceive <= l.clock
  {
    hide BusValid;
  }

  lemma Quiet(l: Line)
    requires l.bus.time4Chars == Stamp(l.lastReceive) && l.lastReceive <= l.clock
    ensures l.clock < l.lastReceive + WAIT_AFTER_READ_MS ==> !Elapsed(Now(l), l.bus.time4Chars, WAIT_AFTER_READ_MS)
  {
    if Elapsed(Now(l), l.bus.time4Chars, WAIT_AFTER_READ_MS) {
      ElapsedIsReal(l.clock, l.lastReceive, WAIT_AFTER_READ_MS);
    }
  }

  lemma StillInTime(l: Line, after: Line)
    requires InTime(l) && SameAsked(l, after) && after.clock == l.clock
    ensures InTime(after)
  {}

  // ----- When the line is quiet -------------------------------------------------------------------

  // The whole reply has been received and not been judged.
  predicate Gathered(l: Line, reply: seq<bv8>) {
    Inv(l) && Awaits(l) && l.bus.rx.end == |reply| <= |l.bus.rx.memory| && Received(l) == reply && reply != [] &&
    l.bus.wire != Transmitting
  }

  // It has been judged: handed over without the timed-out flag exactly if it is acceptable.
  predicate Judged(l: Line, reply: seq<bv8>) {
    Inv(l) && l.bus.request.state == Waiting && l.bus.request.cbInvoke && |l.frame| >= 2 &&
    l.bus.rx.end == |reply| <= |l.bus.rx.memory| && Received(l) == reply && l.bus.wire == Idle &&
    l.bus.lastLength == |reply| > 0 && (l.bus.request.timedOut <==> !Acceptable(reply, l.frame)) &&
    (!l.bus.request.timedOut ==> l.validated == reply)
  }

  // How many ticks there are until then.
  function JudgesIn(l: Line): nat {
    if l.bus.wire == Receiving then (if l.bus.lastLength < l.bus.rx.end then 4 else 2)
    else if l.bus.lastLength < l.bus.rx.end then 3 else 1
  }

  predicate IsQuiet(l: Line) { Elapsed(Now(l), l.bus.time4Chars, WAIT_AFTER_READ_MS) }

  predicate SameTime(l: Line, after: Line) {
    after.clock == l.clock && after.bus.time4Chars == l.bus.time4Chars && SameAsked(l, after)
  }

  lemma QuietTick(l: Line, reply: seq<bv8>)
    requires Gathered(l, reply) && InTime(l) && IsQuiet(l) && JudgesIn(l) > 1
    ensures BusValid(l.bus) && l.bus.lastLength <= l.bus.rx.size
    ensures var after := OnRs485Tick(l, []);
            Gathered(after, reply) && SameTime(l, after) && JudgesIn(after) < JudgesIn(l)
  {
    ReceivedFits(l);
    LengthInRing(l);
    Rs485TickKeeps(l, []);
    hide Inv, Elapsed, ChecksumOk, ResponseOk, BusValid;
  }

  lemma LengthInRing(l: Line)
    requires Inv(l)
    ensures l.bus.lastLength <= l.bus.rx.end && l.bus.mode == Master
  {
    hide BusValid;
  }

  lemma JudgingTick(l: Line, reply: seq<bv8>)
    requires Gathered(l, reply) && InTime(l) && JudgesIn(l) == 1
    ensures BusValid(l.bus) && l.bus.lastLength <= l.bus.rx.size
    ensures var after := OnRs485Tick(l, []);
            Judged(after, reply) && SameTime(l, after)
  {
    LengthInRing(l);
    JudgedExactly(l);
    Rs485TickKeeps(l, []);
    IdleTickKeeps(l);
    hide Inv, OnRs485Tick, Acceptable, BusValid;
  }

  // A tick of an idle line that has sampled everything leaves all this as it is.
  lemma IdleTickKeeps(l: Line)
    requires Inv(l) && l.bus.wire == Idle && l.bus.lastLength == l.bus.rx.end
    ensures BusValid(l.bus) && l.bus.lastLength <= l.bus.rx.size
    ensures var after := OnRs485Tick(l, []);
            && after.bus.rx == l.bus.rx && after.bus.wire == Idle && after.bus.lastLength == l.bus.lastLength
            && after.bus.request.state == l.bus.request.state && SameTime(l, after)
            && (l.bus.request.cbInvoke ==> after.bus.request.cbInvoke)
            && (l.bus.request.timedOut ==> after.bus.request.timedOut)
  {
    ReceivedFits(l);
    hide Inv, Elapsed, ChecksumOk, ResponseOk, BusValid;
  }

  // Further ticks judge it the same way again.
  lemma JudgedStays(l: Line, reply: seq<bv8>)
    requires Judged(l, reply) && InTime(l)
    ensures BusValid(l.bus) && l.bus.lastLength <= l.bus.rx.size
    ensures var after := OnRs485Tick(l, []);
            Judged(after, reply) && SameTime(l, after)
  {
    Rs485TickKeeps(l, []);
    IdleTickKeeps(l);
    if !l.bus.request.timedOut {
      AnsweredAgain(l);
    }
    hide Inv, OnRs485Tick, Acceptable, BusValid;
  }

  lemma AnsweredAgain(l: Line)
    requires Inv(l) && l.bus.request.state == Waiting && InTime(l) && l.bus.wire == Idle && |l.frame| >= 2
    requires l.bus.lastLength == l.bus.rx.end <= |l.bus.rx.memory| && Acceptable(Received(l), l.frame)
    requires !l.bus.request.timedOut
    ensures BusValid(l.bus) && l.bus.lastLength <= l.bus.rx.size
    ensures !OnRs485Tick(l, []).bus.request.timedOut && OnRs485Tick(l, []).validated == Received(l)
  {
    hide Crc16.Accepted, Elapsed;
    ReceivedFits(l);
    assert l.bus.rx.memory[..l.bus.lastLength] == Received(l);
    Prefix(l.bus.tx.memory, l.frame);
    Prefix(l.bus.rx.memory, Received(l));
  }

  function Ticks(n: nat): (events: seq<Event>)
    ensures |events| == n && forall i :: 0 <= i < n ==> events[i] == BusTick([])
  {
    seq(n, i => BusTick([]))
  }

  lemma TickedOnce(s: Station, n: nat, t: Tables)
    requires TablesOk(t) && StationInv(s, t) && n > 0
    ensures BusValid(s.line.bus) && s.line.bus.lastLength <= s.line.bus.rx.size
    ensures var after := s.(line := OnRs485Tick(s.line, []));
            StationInv(after, t) && Run(s, Ticks(n), t) == Run(after, Ticks(n - 1), t)
  {
    hide StationInv, TablesOk, OnRs485Tick, BusValid;
    StationLength(s, t);
    StepKeeps(s, BusTick([]), t);
    BusTickIs(s, t);
    assert Ticks(n)[1..] == Ticks(n - 1);
    hide Step;
  }

  lemma StationLength(s: Station, t: Tables)
    requires StationInv(s, t)
    ensures BusValid(s.line.bus) && s.line.bus.lastLength <= s.line.bus.rx.size && Inv(s.line)
  {
    InvLength(s.line);
    hide Inv, DriverShape, Agrees;
  }

  lemma BusTickIs(s: Station, t: Tables)
    requires TablesOk(t) && StationInv(s, t) && BusValid(s.line.bus) && s.line.bus.lastLength <= s.line.bus.rx.size
    ensures Step(s, BusTick([]), t) == s.(line := OnRs485Tick(s.line, []))
  {
    hide Inv, DriverShape, Agrees, TablesOk, OnRs485Tick, BusValid, MeterTick;
    StationLength(s, t);
  }

  lemma {:induction false} TicksJudge(s: Station, reply: seq<bv8>, n: nat, t: Tables)
    requires TablesOk(t) && StationInv(s, t) && InTime(s.line)
    requires Judged(s.line, reply) || (Gathered(s.line, reply) && IsQuiet(s.line) && JudgesIn(s.line) <= n)
    ensures var after := Run(s, Ticks(n), t);
            Judged(after.line, reply) && after.meter == s.meter && SameTime(s.line, after.line)
    decreases n
  {
    hide StationInv, TablesOk, OnRs485Tick, BusValid, Elapsed, Inv, Acceptable, Awaits;
    if n > 0 {
      TickedOnce(s, n, t);
      var next := s.(line := OnRs485Tick(s.line, []));
      if Judged(s.line, reply) {
        JudgedStays(s.line, reply);
      } else if JudgesIn(s.line) > 1 {
        QuietTick(s.line, reply);
      } else {
        JudgingTick(s.line, reply);
      }
      TicksJudge(next, reply, n - 1, t);
    } else {
      NoTicks(s, t);
    }
  }

  lemma NoTicks(s: Station, t: Tables)
    requires TablesOk(t) && StationInv(s, t)
    ensures Run(s, Ticks(0), t) == s && SameTime(s.line, s.line)
  {
    hide StationInv, TablesOk;
    assert Ticks(0) == [];
  }

  // ----- Meanwhile the driver waits ---------------------------------------------------------------

  lemma NothingReady(l: Line, fc: FunctionCode)
    requires BusValid(l.bus) && !l.bus.request.cbInvoke
    ensures ResponseOf(l, fc).Pending?
  {
    hide HasError, CodeOf, BusValid;
  }

  // The Eltako driver handles its block only while its response is held.
  predicate EltakoHolds(s: Station) {
    IsEltako(s.meter.meterType) && s.meter.state == 2 ==>
      s.line.bus.request.state == Waiting && s.line.bus.request.cbInvoke
  }

  lemma ReadScanWaits(l: Line, m: Meter, t: Table, o: Outside)
    requires BusValid(l.bus) && Positioned(m, t) && HasBothKinds(t) && !l.bus.request.cbInvoke
    ensures ReadScan(l, m, t, o) == Station(l, m)
  {
    hide BusValid, Terminated, Count, ResponseOf, AfterResponse, Data, Done, ScanOn, HasKind, RegisterSize;
    NothingReady(l, ReadInput);
  }

  lemma EastronWaits(l: Line, m: Meter, t: Table, o: Outside)
    requires BusValid(l.bus) && Positioned(m, t) && HasBothKinds(t) && EastronAsks(m, t).Some?
    requires !l.bus.request.cbInvoke
    ensures EastronTick(l, m, t, o) == Station(l, m)
  {
    hide BusValid, Terminated, Count, ResponseOf, AfterResponse, Data, Done, HasKind, ReadScan, RequestScan, Misfit,
         OnClear, AskWrite, Ask;
    ReadScanWaits(l, m, t, o);
    NothingReady(l, ReadHolding);
    NothingReady(l, WriteMultiple);
  }

  lemma GenericWaits(l: Line, m: Meter, t: Table, o: Outside)
    requires BusValid(l.bus) && Positioned(m, t) && HasBothKinds(t) && GenericAsks(m, t).Some?
    requires !l.bus.request.cbInvoke
    ensures GenericTick(l, m, t, o) == Station(l, m)
  {
    hide BusValid, Terminated, Count, HasKind, ReadScan, RequestScan;
    ReadScanWaits(l, m, t, o);
  }

  lemma IskraPends(l: Line, m: Meter, t: Table, o: Outside)
    requires BusValid(l.bus) && Positioned(m, t) && IskraShape(m) && IskraAsks(m, t).Some?
    requires !l.bus.request.cbInvoke
    ensures IskraTick(l, m, t, o) == Station(l, m)
  {
    hide BusValid, Terminated, Count, ResponseOf, AfterResponse, Data, Done, Elapsed, StoreBlock, RegisterSize;
    NothingReady(l, ReadInput);
    NothingReady(l, ReadHolding);
  }

  lemma EltakoWaits(l: Line, m: Meter, t: Table, o: Outside)
    requires BusValid(l.bus) && EltakoShape(m, t) && m.state == 1 && !l.bus.request.cbInvoke
    ensures EltakoTick(l, m, t, o) == Station(l, m)
  {
    hide BusValid, EltakoTable, ResponseOf, AfterResponse, OnNoteException;
    NothingReady(l, ReadInput);
  }

  // A driver tick leaves line and meter as they are while the request it waits for has no response.
  lemma DriverWaits(l: Line, m: Meter, t: Tables, o: Outside)
    requires BusValid(l.bus) && TablesOk(t) && MeterShape(m, t) && !m.meterType.Unknown? && Asks(m, t).Some?
    requires !l.bus.request.cbInvoke && (IsIskra(m.meterType) ==> IskraShape(m))
    requires IsEltako(m.meterType) ==> m.state != 2
    ensures DriverTick(l, m, t, o) == Station(l, m)
  {
    hide BusValid, Terminated, Count, HasKind, EltakoTable, EastronTick, GenericTick, IskraTick, EltakoTick,
         EastronAsks, GenericAsks, IskraAsks, IskraShape;
    var table := TableOf(t, m.meterType);
    if IsEastron(m.meterType) {
      EastronWaits(l, m, table, o);
    } else if IsGeneric(m.meterType) {
      GenericWaits(l, m, table, o);
    } else if IsIskra(m.meterType) {
      IskraPends(l, m, table, o);
    } else {
      EltakoWaits(l, m, table, o);
    }
  }

  lemma FindStepWaits(l: Line, d: Detection)
    requires BusValid(l.bus) && DetectionAsks(d).Some? && !l.bus.request.cbInvoke
    ensures FindStep(l, d) == Finding(l, d, Detecting, NoResponse)
  {
    hide BusValid, ResponseOf, Data, Done, OnClear, Ask, AskWrite;
    NothingReady(l, ReadInput);
    NothingReady(l, ReadHolding);
    NothingReady(l, WriteSingle);
  }

  lemma DetectionWaits(l: Line, m: Meter)
    requires BusValid(l.bus) && DetectionAsks(m.detection).Some? && !l.bus.request.cbInvoke
    ensures FindMeterType(l, m) == Station(OnResetCounters(l), m)
  {
    hide BusValid, AfterResponse, OnResetCounters, SetMeterType, FindStep;
    FindStepWaits(l, m.detection);
  }

  lemma PendingTick(s: Station, t: Tables, o: Outside)
    requires TablesOk(t) && StationInv(s, t) && EltakoHolds(s) && Awaits(s.line)
    ensures var after := Step(s, MainTick(o), t);
            && (after.line == s.line || after.line == OnResetCounters(s.line))
            && after.meter == s.meter.(guard := after.meter.guard)
  {
    var l, m := s.line, s.meter;
    hide Inv, BusValid, TablesOk, MeterShape, FindMeterType, DriverTick, Awake, Watched, OnResetCounters, FrameAsks;
    InvValid(l);
    ShapeForTick(m, t);
    if !m.guard.stuck && !m.meterType.Unsupported? {
      var (awake, guard) := Awake(m.guard, Now(l));
      if awake && m.meterType.Unknown? {
        DetectionWaits(l, m.(guard := guard));
      } else if awake {
        var n := m.(guard := Watched(guard, m.state, Now(l)));
        GuardShape(m, n.guard, t);
        SameAsks(m, n.guard, t);
        DriverWaits(l, n, t, o);
      }
    }
  }

  lemma SameAsks(m: Meter, g: Guard, t: Tables)
    ensures Asks(m.(guard := g), t) == Asks(m, t)
  {}

  lemma ResetGathers(l: Line, part: seq<bv8>)
    requires Gathering(l, part)
    ensures var after := OnResetCounters(l);
            && Gathering(after, part) && SameAsked(l, after) && after.lastReceive == l.lastReceive
  {
    CountersKeep(l);
    hide Inv;
  }

  lemma EltakoTickHolds(l: Line, m: Meter, t: Table, o: Outside)
    requires BusValid(l.bus) && EltakoShape(m, t) && EltakoHolds(Station(l, m)) && IsEltako(m.meterType)
    ensures EltakoHolds(EltakoTick(l, m, t, o))
  {
    hide BusValid, EltakoTable, Terminated, Count, HasError, ResponseWords, Ask, AfterResponse, Elapsed;
    AfterResponseIs(m, l, true);
    NoteKeepsRequest(l);
    if m.state == 2 {
      EltakoTableHasEntry(t);
    }
  }

  lemma NoteKeepsRequest(l: Line)
    requires BusValid(l.bus)
    ensures OnNoteException(l).bus.request == l.bus.request
  {
    hide BusValid, IsException;
  }

  // Every event keeps this, from boot on.
  lemma HoldsStep(s: Station, e: Event, t: Tables)
    requires TablesOk(t) && StationInv(s, t) && EltakoHolds(s)
    ensures EltakoHolds(Step(s, e, t))
  {
    hide Inv, Agrees, BusValid, TablesOk, OnRs485Tick, OnRxInterrupt, OnTxInterrupt, FindMeterType, Awake, Watched,
         EastronTick, GenericTick, IskraTick, EltakoTick, EltakoTable, Terminated, Count, TableOf;
    var l, m := s.line, s.meter;
    InvLength(l);
    match e
    case Pass(ms) =>
    case RxIrq(bytes) => OnRxIs(l, bytes);
    case TxIrq(room) => OnTxIs(l, room);
    case BusTick(bytes) => KeepsInvoke(l, bytes);
    case MainTick(o) =>
      if !m.guard.stuck && !m.meterType.Unsupported? {
        var (awake, guard) := Awake(m.guard, Now(l));
        if awake && m.meterType.Unknown? {
          FoundIsFresh(l, m.(guard := guard));
        } else if awake {
          var n := m.(guard := Watched(guard, m.state, Now(l)));
          DriverHolds(l, n, t, o);
        }
      }
  }

  lemma KeepsInvoke(l: Line, bytes: seq<bv8>)
    requires BusValid(l.bus) && l.bus.lastLength <= l.bus.rx.size
    ensures var before, after := l.bus.request, OnRs485Tick(l, bytes).bus.request;
            after.state == before.state && (before.cbInvoke ==> after.cbInvoke)
  {
    hide BusValid, ReceiveAll, IdleEvent, Elapsed, EventOf;
  }

  lemma FoundIsFresh(l: Line, m: Meter)
    requires BusValid(l.bus)
    ensures FindMeterType(l, m).meter.state == m.state
  {
    hide BusValid, FindStep, OnResetCounters, HasError;
  }

  lemma DriverHolds(l: Line, m: Meter, t: Tables, o: Outside)
    requires BusValid(l.bus) && TablesOk(t) && MeterShape(m, t) && EltakoHolds(Station(l, m)) && !m.meterType.Unknown?
    ensures EltakoHolds(DriverTick(l, m, t, o))
  {
    hide BusValid, TablesOk, EltakoTick, EltakoTable, Terminated, Count, HasKind, TableOf;
    if IsEltako(m.meterType) {
      EltakoTickHolds(l, m, TableOf(t, m.meterType), o);
    } else {
      OthersStay(l, m, t, o);
    }
  }

  // No driver changes the type of the meter.
  lemma OthersStay(l: Line, m: Meter, t: Tables, o: Outside)
    requires BusValid(l.bus) && TablesOk(t) && MeterShape(m, t) && !m.meterType.Unknown? && !IsEltako(m.meterType)
    ensures DriverTick(l, m, t, o).meter.meterType == m.meterType
  {
    hide BusValid, TablesOk, Terminated, Count, HasKind, TableOf, ResponseOf, Data, Done, OnClear, Ask, AskWrite,
         HasError, Elapsed, Misfit, StoreBlock, ScanOn, RegisterSize, Completed, IskraCompleted, NextEntry;
    var n := AfterResponse(m, l, true);
    BlockKeeps(n, l, FAST_VOLTAGES);
    BlockKeeps(n, l, FAST_CURRENTS);
  }

  // ----- A reply comes in piece by piece ----------------------------------------------------------

  // All bytes received during these events, by interrupt or by a tick of the bus.
  function BytesOf(events: seq<Event>): seq<bv8>
    decreases |events|
  {
    if events == [] then [] else PartOf(events[0]) + BytesOf(events[1..])
  }

  function PartOf(e: Event): seq<bv8> {
    match e
    case RxIrq(bytes) => bytes
    case BusTick(bytes) => bytes
    case _ => []
  }

  // From the first byte on, `since` milliseconds ago, never as much as five of them pass without another one.
  predicate Dense(events: seq<Event>, since: Option<nat>)
    decreases |events|
  {
    events == [] ||
    var e, rest := events[0], events[1..];
    match e
    case Pass(ms) =>
      if since.None? then Dense(rest, since)
      else since.value + ms < WAIT_AFTER_READ_MS && Dense(rest, Some(since.value + ms))
    case RxIrq(bytes) => Dense(rest, if bytes == [] then since else Some(0))
    case BusTick(bytes) => Dense(rest, if bytes == [] then since else Some(0))
    case _ => Dense(rest, since)
  }

  // How long the request has been waiting, as far as the clock can tell.
  function Waited(l: Line): nat { (Now(l) - l.bus.request.timeRef) % WRAP }

  predicate Since(l: Line, part: seq<bv8>, since: Option<nat>) {
    if part == [] then since.None?
    else since.Some? && since.value < WAIT_AFTER_READ_MS && l.clock <= l.lastReceive + since.value
  }

  lemma LaterWaited(l: Line, ms: nat)
    ensures Waited(Advance(l, ms)) <= Waited(l) + ms
  {
    Later(l.clock, l.bus.request.timeRef, ms);
    ResidueAtMost(Waited(l) + ms);
  }

  lemma WaitedInTime(l: Line)
    ensures InTime(l) <==> Waited(l) < l.bus.timeoutPeriod
  {}

  function SinceAfter(e: Event, since: Option<nat>): Option<nat> {
    match e
    case Pass(ms) => if since.None? then None else Some(since.value + ms)
    case RxIrq(bytes) => if bytes == [] then since else Some(0)
    case BusTick(bytes) => if bytes == [] then since else Some(0)
    case _ => since
  }

  function PassTime(e: Event): nat { if e.Pass? then e.ms else 0 }

  lemma GatherStep(s: Station, e: Event, part: seq<bv8>, since: Option<nat>, t: Tables)
    requires TablesOk(t) && StationInv(s, t) && EltakoHolds(s) && Gathering(s.line, part) && Since(s.line, part, since)
    requires |part + PartOf(e)| < s.line.bus.rx.size && Waited(s.line) + PassTime(e) < s.line.bus.timeoutPeriod
    requires e.Pass? && since.Some? ==> since.value + e.ms < WAIT_AFTER_READ_MS
    ensures var after := Step(s, e, t);
            && Gathering(after.line, part + PartOf(e)) && Since(after.line, part + PartOf(e), SinceAfter(e, since))
            && SameAsked(s.line, after.line) && Waited(after.line) <= Waited(s.line) + PassTime(e)
            && after.meter == s.meter.(guard := after.meter.guard)
  {
    var l := s.line;
    hide Inv, Agrees, BusValid, TablesOk, OnRs485Tick, OnRxInterrupt, OnTxInterrupt, MeterTick, Gathering, Elapsed,
         DriverShape, Stamp;
    StationLength(s, t);
    GatheringAwaits(l, part);
    assert part + [] == part;
    WaitedInTime(l);
    match e
    case Pass(ms) => PassGathers(l, part, ms); LaterWaited(l, ms);
    case RxIrq(bytes) => RxGathers(l, part, bytes); RxKeepsTime(l, bytes);
    case TxIrq(room) => TxGathers(l, part, room);
    case BusTick(bytes) => TickGathers(l, part, bytes);
    case MainTick(o) => PendingTick(s, t, o); ResetGathers(l, part); SameTimeReset(l);
  }

  lemma GatheringAwaits(l: Line, part: seq<bv8>)
    requires Gathering(l, part)
    ensures Awaits(l)
  {
    hide Inv;
  }

  lemma RxKeepsTime(l: Line, bytes: seq<bv8>)
    requires BusValid(l.bus)
    ensures OnRxInterrupt(l, bytes).clock == l.clock
  {}

  lemma SameTimeReset(l: Line)
    ensures OnResetCounters(l).clock == l.clock && OnResetCounters(l).lastReceive == l.lastReceive
    ensures SameAsked(l, OnResetCounters(l)) && SameAsked(l, l)
  {}

  lemma {:induction false} Gathers(s: Station, events: seq<Event>, part: seq<bv8>, since: Option<nat>, t: Tables)
    requires TablesOk(t) && StationInv(s, t) && EltakoHolds(s) && Gathering(s.line, part) && Since(s.line, part, since)
    requires Dense(events, since) && |part + BytesOf(events)| < s.line.bus.rx.size
    requires Waited(s.line) + TimeOf(events) < s.line.bus.timeoutPeriod
    ensures var after := Run(s, events, t);
            && Gathering(after.line, part + BytesOf(events)) && SameAsked(s.line, after.line)
            && Waited(after.line) <= Waited(s.line) + TimeOf(events)
            && after.meter == s.meter.(guard := after.meter.guard)
            && (part + BytesOf(events) != [] ==> after.line.clock < after.line.lastReceive + WAIT_AFTER_READ_MS)
    decreases |events|
  {
    hide StationInv, TablesOk, Step, Gathering, EltakoHolds, Waited;
    if events == [] {
      assert part + BytesOf(events) == part;
    } else {
      var e, rest := events[0], events[1..];
      assert part + PartOf(e) + BytesOf(rest) == part + BytesOf(events);
      GatherStep(s, e, part, since, t);
      StepKeeps(s, e, t);
      HoldsStep(s, e, t);
      Gathers(Step(s, e, t), rest, part + PartOf(e), SinceAfter(e, since), t);
    }
  }

  lemma {:induction false} RunHolds(s: Station, events: seq<Event>, t: Tables)
    requires TablesOk(t) && StationInv(s, t) && EltakoHolds(s)
    ensures EltakoHolds(Run(s, events, t))
    decreases |events|
  {
    hide StationInv, TablesOk, Step, EltakoHolds;
    if events != [] {
      StepKeeps(s, events[0], t);
      HoldsStep(s, events[0], t);
      RunHolds(Step(s, events[0], t), events[1..], t);
    }
  }

  lemma ReachedHolds(s: Station, t: Tables)
    requires TablesOk(t) && Reached(s, t)
    ensures StationInv(s, t) && EltakoHolds(s)
  {
    hide StationInv, Run, Boots, TablesOk, EltakoHolds;
    EveryRun(s, t);
    var bus, clock: nat, events :| IsRun(s, t, bus, clock, events);
    BootStation(bus, clock, t);
    BootHolds(bus, clock);
    RunHolds(Station(BootLine(bus, clock), BootMeter(Stamp(clock))), events, t);
  }

  lemma BootHolds(bus: Bus, clock: nat)
    ensures EltakoHolds(Station(BootLine(bus, clock), BootMeter(Stamp(clock))))
  {}

  // Nothing has been received for the request yet, and it has been clocked out.
  predicate Listening(l: Line) { Awaits(l) && l.bus.wire == Idle && l.bus.rx.end == 0 }

  lemma ListeningGathers(l: Line)
    requires Inv(l) && Listening(l)
    ensures Gathering(l, [])
  {
    ReceivedFits(l);
    hide Inv;
  }

  lemma GatheredIn(l: Line, reply: seq<bv8>)
    requires Gathering(l, reply) && reply != []
    ensures Gathered(l, reply) && JudgesIn(l) <= 4
  {
    hide Inv;
  }

  // The quiet after the last byte.
  lemma QuietPasses(s: Station, reply: seq<bv8>, quiet: nat, t: Tables)
    requires TablesOk(t) && StationInv(s, t) && Gathering(s.line, reply) && reply != []
    requires s.line.clock < s.line.lastReceive + WAIT_AFTER_READ_MS <= s.line.lastReceive + quiet
    requires quiet + WAIT_AFTER_READ_MS < WRAP && Waited(s.line) + quiet < s.line.bus.timeoutPeriod
    ensures var after := s.(line := Advance(s.line, quiet));
            && StationInv(after, t) && Run(s, [Pass(quiet)], t) == after && Gathered(after.line, reply)
            && IsQuiet(after.line) && InTime(after.line) && JudgesIn(after.line) <= 4
  {
    hide Inv, DriverShape, Agrees, TablesOk, BusValid, MeterTick, Run, Elapsed, Gathering, Gathered, Waited, InTime;
    var l, after := s.line, s.(line := Advance(s.line, quiet));
    StationLength(s, t);
    StampOf(l);
    PassGathers(l, reply, quiet);
    GatheredIn(Advance(l, quiet), reply);
    LaterWaited(l, quiet);
    WaitedInTime(Advance(l, quiet));
    ElapsedWithinWrap(l.clock + quiet, l.lastReceive, WAIT_AFTER_READ_MS);
    StepKeeps(s, Pass(quiet), t);
    RunSingle(s, Pass(quiet), t);
  }

  lemma RunSingle(s: Station, e: Event, t: Tables)
    requires TablesOk(t) && StationInv(s, t)
    ensures StationInv(Step(s, e, t), t) && Run(s, [e], t) == Step(s, e, t)
  {
    hide StationInv, TablesOk, Step;
    StepKeeps(s, e, t);
    assert [e][1..] == [];
    assert Run(Step(s, e, t), [], t) == Step(s, e, t);
  }

  // A reply that comes in while a request waits, in any pieces and between any other events, is handed to the
  // driver once the line has been quiet: as good exactly when it is acceptable and no exception.
  lemma {:induction false} ReplyArrives(s: Station, events: seq<Event>, quiet: nat, n: nat, t: Tables)
    requires TablesOk(t) && Reached(s, t) && Listening(s.line)
    requires Dense(events, None) && 0 < |BytesOf(events)| < s.line.bus.rx.size
    requires WAIT_AFTER_READ_MS <= quiet < WRAP - WAIT_AFTER_READ_MS && n >= 4
    requires Waited(s.line) + TimeOf(events) + quiet < s.line.bus.timeoutPeriod
    ensures StationInv(s, t) && Asks(s.meter, t).Some? && |s.line.frame| >= 2
    ensures var q, reply := Asks(s.meter, t).value, BytesOf(events);
            var after := Run(s, events + [Pass(quiet)] + Ticks(n), t);
            && Asks(after.meter, t) == Some(q) && BusValid(after.line.bus) && after.line.frame == s.line.frame
            && after.line.bus.request.cbInvoke
            && (after.line.bus.request.timedOut <==> !Acceptable(reply, s.line.frame))
            && ResponseOf(after.line, q.fc) ==
                 (if Acceptable(reply, s.line.frame) && reply[1] == CodeOf(q.fc) then Good else Failed)
            && (Acceptable(reply, s.line.frame) ==> after.line.validated == reply)
            && (ResponseOf(after.line, q.fc).Good? ==> Answers(after.line, q))
  {
    hide StationInv, TablesOk, Reached, EltakoHolds, Inv, Run, Acceptable, Gathering, Gathered, InTime, IsQuiet, Waited,
         Judged, TimeOf, Dense, Answers, ResponseOf, Asks, BusValid;
    ReachedHolds(s, t);
    StationLength(s, t);
    AskedFrame(s, t);
    ListeningGathers(s.line);
    var reply := BytesOf(events);
    assert [] + reply == reply;
    Gathers(s, events, [], None, t);
    var full := Run(s, events, t);
    RunKeeps(s, events, t);
    QuietPasses(full, reply, quiet, t);
    var still := Run(full, [Pass(quiet)], t);
    TicksJudge(still, reply, n, t);
    RunAppend(s, events, [Pass(quiet)], t);
    RunAppend(s, events + [Pass(quiet)], Ticks(n), t);
    var after := Run(s, events + [Pass(quiet)] + Ticks(n), t);
    RunKeeps(s, events + [Pass(quiet)] + Ticks(n), t);
    SameAsks(s.meter, after.meter.guard, t);
    JudgedIs(after, reply, t);
  }

  lemma AskedFrame(s: Station, t: Tables)
    requires StationInv(s, t) && Awaits(s.line)
    ensures Asks(s.meter, t).Some? && s.line.frame == Crc16.WithCrc(PayloadOf(Asks(s.meter, t).value))
    ensures |s.line.frame| >= 2
  {
    hide Inv, DriverShape, Asks, Crc16.WithCrc, PayloadOf;
    ReceivedFits(s.line);
  }

  lemma JudgedIs(s: Station, reply: seq<bv8>, t: Tables)
    requires StationInv(s, t) && Asks(s.meter, t).Some? && Judged(s.line, reply)
    ensures BusValid(s.line.bus) && |s.line.frame| >= 2
    ensures var l, q := s.line, Asks(s.meter, t).value;
            && l.bus.request.cbInvoke && (l.bus.request.timedOut <==> !Acceptable(reply, l.frame))
            && ResponseOf(l, q.fc) == (if Acceptable(reply, l.frame) && reply[1] == CodeOf(q.fc) then Good else Failed)
            && (Acceptable(reply, l.frame) ==> l.validated == reply)
            && (ResponseOf(l, q.fc).Good? ==> Answers(l, q))
  {
    hide Inv, DriverShape, Asks, BusValid, Answers, ResponseOf;
    var l, q := s.line, Asks(s.meter, t).value;
    ReceivedFits(l);
    ResponseArrived(l, q);
    FunctionAsked(l.frame, q);
    ErrorIs(l, reply);
    ResponseIs(l, q.fc);
    if ResponseOf(l, q.fc).Good? {
      GoodAnswers(s, t, q);
    }
  }

  lemma ResponseIs(l: Line, fc: FunctionCode)
    requires BusValid(l.bus) && !ResponseOf(l, fc).Pending?
    ensures ResponseOf(l, fc) == if HasError(l.bus) then Failed else Good
  {
    hide BusValid, ResponseReady, HasError;
  }

  // An acceptable reply is no error exactly if it carries the function code that was asked.
  lemma ErrorIs(l: Line, reply: seq<bv8>)
    requires Judged(l, reply) && BusValid(l.bus)
    ensures HasError(l.bus) <==> !(Acceptable(reply, l.frame) && reply[1] == l.frame[1])
  {
    hide Crc16.Accepted;
    ReceivedFits(l);
    TxStarts(l);
    if Acceptable(reply, l.frame) {
      Prefix(l.bus.rx.memory, reply);
    }
  }

  lemma TxStarts(l: Line)
    requires Inv(l) && l.bus.request.state == Waiting
    ensures |l.frame| >= 2 && |l.bus.tx.memory| >= 2 && l.bus.tx.memory[1] == l.frame[1]
  {
    hide Crc16.Accepted, ValidReply;
    Prefix(l.bus.tx.memory, l.frame);
  }

  // ----- A request begins -------------------------------------------------------------------------

  // A request that begins now: its frame is queued and nothing else has happened to it.
  predicate Started(before: Line, l: Line) {
    l.bus.request.state == Waiting && !l.bus.request.timedOut && !l.bus.request.cbInvoke &&
    l.bus.request.timeRef == Now(before) && l.clock == before.clock && l.bus.wire == Transmitting && l.sent == [] &&
    (l.bus.rx == before.bus.rx || l.bus.rx == R.Reset(before.bus.rx))
  }

  predicate Starts(before: Line, after: Line) { after.bus.request.state == Ready || Started(before, after) }

  lemma SendStarts(l: Line, payload: seq<bv8>, responseLength: nat)
    requires BusValid(l.bus) && l.bus.mode == Master && !l.bus.request.timedOut
    ensures Started(l, OnSend(l, payload, responseLength))
  {
    hide BusValid, Store, AddChecksum, R.Items;
  }

  lemma AskStarts(l: Line, fc: FunctionCode, slave: Slave, register: nat, count: nat)
    requires Inv(l) && l.bus.request.state == Ready
    ensures BusValid(l.bus) && Started(l, Ask(l, fc, slave, register, count))
  {
    ReadyFlags(l);
    hide Inv, BusValid, OnSend, Started, ReadPayload;
    SendStarts(l, ReadPayload(CodeOf(fc), AddressOf(slave), register, count), 10);
  }

  lemma ReadyFlags(l: Line)
    requires Inv(l) && l.bus.request.state == Ready
    ensures BusValid(l.bus) && l.bus.mode == Master && !l.bus.request.timedOut && Starts(l, l)
  {
    hide BusValid;
  }

  lemma WriteStarts(l: Line, fc: FunctionCode, slave: Slave, register: nat, value: Word)
    requires Inv(l) && l.bus.request.state == Ready
    ensures BusValid(l.bus) && Started(l, AskWrite(OnClear(l), fc, slave, register, value))
  {
    ReadyFlags(l);
    ClearStarts(l);
    hide Inv, BusValid, OnSend, Started, WritePayload, OnClear;
    var c := OnClear(l);
    SendStarts(c, WritePayload(CodeOf(fc), AddressOf(slave), register, value), 13);
    FromCleared(l, AskWrite(c, fc, slave, register, value));
  }

  lemma ClearStarts(l: Line)
    requires BusValid(l.bus) && l.bus.mode == Master
    ensures var c := OnClear(l);
            && BusValid(c.bus) && c.bus.mode == Master && !c.bus.request.timedOut && c.clock == l.clock
            && c.bus.rx == R.Reset(l.bus.rx)
  {}

  lemma FromCleared(l: Line, after: Line)
    requires Started(OnClear(l), after)
    ensures Started(l, after)
  {}

  lemma EastronStarts(l: Line, m: Meter, t: Table, o: Outside)
    requires Inv(l) && l.bus.request.state == Ready && Positioned(m, t) && HasBothKinds(t) && EastronAsks(m, t).None?
    ensures BusValid(l.bus) && Starts(l, EastronTick(l, m, t, o).line)
  {
    hide Inv, BusValid, Terminated, Count, HasKind, ReadScan, Started, Ask, AskWrite, OnClear, RegisterSize, Elapsed;
    ReadyFlags(l);
    if m.state == 0 {
      RequestScanStarts(l, m, t);
    } else {
      PositionsInTable(m, t);
      AskStarts(l, ReadHolding, m.slave, 11, 2);
      WriteStarts(l, WriteMultiple, m.slave, if m.meterType.Sdm72V2? then 15 else 25, PASSWORD);
      WriteStarts(l, WriteMultiple, m.slave, 11, if OnlyFirst(m.readings.phases) then ONE_PHASE else THREE_PHASES);
    }
  }

  lemma RequestScanStarts(l: Line, m: Meter, t: Table)
    requires Inv(l) && l.bus.request.state == Ready && Positioned(m, t)
    ensures BusValid(l.bus) && Starts(l, RequestScan(l, m, t).line)
  {
    hide Inv, Terminated, Started, Ask, RegisterSize, Elapsed, BusValid;
    ReadyFlags(l);
    var c := m.scan.(readFast := Elapsed(Now(l), m.scan.fastTime, 500) || m.scan.readFast);
    AskStarts(l, ReadInput, m.slave, t[Position(c)].register, RegisterSize(t[Position(c)]));
  }

  lemma GenericStarts(l: Line, m: Meter, t: Table, o: Outside)
    requires Inv(l) && l.bus.request.state == Ready && Positioned(m, t) && HasBothKinds(t) && GenericAsks(m, t).None?
    ensures BusValid(l.bus) && Starts(l, GenericTick(l, m, t, o).line)
  {
    hide Inv, BusValid, Terminated, Count, HasKind, ReadScan, RequestScan, Started;
    ReadyFlags(l);
    PositionsInTable(m, t);
    if m.state == 0 {
      RequestScanStarts(l, m, t);
    }
  }

  lemma IskraStarts(l: Line, m: Meter, t: Table, o: Outside)
    requires Inv(l) && l.bus.request.state == Ready && Positioned(m, t) && IskraShape(m) && IskraAsks(m, t).None?
    ensures BusValid(l.bus) && Starts(l, IskraTick(l, m, t, o).line)
  {
    hide Inv, BusValid, Terminated, Count, Started, Ask, RegisterSize, Elapsed, StoreBlock, FullScanDone;
    ReadyFlags(l);
    PositionsInTable(m, t);
    var d := t[m.scan.fullPosition];
    AskStarts(l, ReadInput, m.slave, d.register, RegisterSize(d));
    AskStarts(l, ReadInput, m.slave, 106, 8);
    AskStarts(l, ReadInput, m.slave, 127, 6);
    AskStarts(l, ReadHolding, m.slave, 7001, 1);
    AskStarts(l, ReadHolding, m.slave, 7053, 1);
  }

  lemma EltakoStarts(l: Line, m: Meter, t: Table, o: Outside)
    requires Inv(l) && l.bus.request.state == Ready && EltakoShape(m, t) && EltakoAsks(m, t).None?
    ensures BusValid(l.bus) && Starts(l, EltakoTick(l, m, t, o).line)
  {
    hide Inv, BusValid, EltakoTable, Started, Ask, EltakoDerive;
    ReadyFlags(l);
    EltakoTableHasEntry(t);
    AskStarts(l, ReadInput, m.slave, t[0].register, ELTAKO_REGISTERS);
  }

  lemma DetectionStarts(l: Line, d: Detection)
    requires Inv(l) && l.bus.request.state == Ready && DetectionShape(d) && DetectionAsks(d).None?
    ensures BusValid(l.bus) && Starts(l, FindStep(l, d).line)
  {
    hide Inv, BusValid, Started, Ask, AskWrite, OnClear;
    ReadyFlags(l);
    AskStarts(l, ReadHolding, Slave01, 0x100D, 1);
    AskStarts(l, ReadHolding, Slave01, 64515, 1);
    AskStarts(l, ReadHolding, Slave01, 64515, 2);
    AskStarts(l, ReadHolding, Slave01, 64525, 2);
    AskStarts(l, ReadInput, Slave21, 2, 4);
    WriteStarts(l, WriteSingle, Slave01, 63767, Word(0, 0, 0, 0));
    WriteStarts(l, WriteSingle, Slave01, 63768, Word(0, 0, 0, 1));
  }

  lemma FindStarts(l: Line, m: Meter)
    requires Inv(l) && l.bus.request.state == Ready && DetectionShape(m.detection) && DetectionAsks(m.detection).None?
    ensures BusValid(l.bus) && Starts(l, FindMeterType(l, m).line)
  {
    ReadyFlags(l);
    DetectionStarts(l, m.detection);
    hide Inv, BusValid, FindStep, DetectionShape, OnResetCounters, Started, AfterFinding, SetMeterType;
    StartedReset(l, FindStep(l, m.detection).line);
  }

  lemma StartedReset(l: Line, after: Line)
    ensures Starts(l, after) ==> Starts(l, OnResetCounters(after))
  {}

  lemma DriverStarts(l: Line, m: Meter, t: Tables, o: Outside)
    requires Inv(l) && l.bus.request.state == Ready && TablesOk(t) && DriverShape(m, t) && Asks(m, t).None?
    requires !m.meterType.Unknown?
    ensures BusValid(l.bus) && MeterShape(m, t) && Starts(l, DriverTick(l, m, t, o).line)
  {
    hide Inv, BusValid, Terminated, Count, HasKind, EltakoTable, EastronTick, GenericTick, IskraTick, EltakoTick,
         EastronAsks, GenericAsks, IskraAsks, IskraShape, EltakoAsks, Started;
    ReadyFlags(l);
    var table := TableOf(t, m.meterType);
    if IsEastron(m.meterType) {
      EastronStarts(l, m, table, o);
    } else if IsGeneric(m.meterType) {
      GenericStarts(l, m, table, o);
    } else if IsIskra(m.meterType) {
      IskraStarts(l, m, table, o);
    } else if IsEltako(m.meterType) {
      EltakoStarts(l, m, table, o);
    }
  }

  // A tick of the meter on an idle bus either leaves it idle or begins a request at this very instant.
  lemma RequestStarts(s: Station, t: Tables, o: Outside)
    requires TablesOk(t) && StationInv(s, t) && s.line.bus.request.state == Ready
    ensures Starts(s.line, Step(s, MainTick(o), t).line)
  {
    var l, m := s.line, s.meter;
    hide Inv, BusValid, TablesOk, FindMeterType, DriverTick, Awake, Watched, Asks, Started, MeterShape, DetectionShape,
         Untouched, IskraShape, FrameAsks;
    ReadyFlags(l);
    ShapeForTick(m, t);
    if !m.guard.stuck && !m.meterType.Unsupported? {
      var (awake, guard) := Awake(m.guard, Now(l));
      if awake && m.meterType.Unknown? {
        UnknownAsks(m, t);
        FindStarts(l, m.(guard := guard));
      } else if awake {
        var n := m.(guard := Watched(guard, m.state, Now(l)));
        ShapeWithGuard(m, n.guard, t);
        SameAsks(m, n.guard, t);
        DriverStarts(l, n, t, o);
      }
    }
  }

  lemma ShapeWithGuard(m: Meter, g: Guard, t: Tables)
    requires DriverShape(m, t)
    ensures DriverShape(m.(guard := g), t) && MeterShape(m.(guard := g), t)
  {
    hide Terminated, Count, EltakoTable, DetectionShape, TableOf;
  }

  lemma UnknownAsks(m: Meter, t: Tables)
    requires DriverShape(m, t) && m.meterType.Unknown?
    ensures Asks(m, t) == DetectionAsks(m.detection) && DetectionShape(m.detection)
  {
    hide DetectionAsks, DetectionShape, MeterShape;
  }

  // Clocked out at once, it listens to an empty receive ring, with its whole timeout ahead.
  lemma StartedListens(s: Station, o: Outside, t: Tables)
    requires TablesOk(t) && StationInv(s, t) && s.line.bus.request.state == Ready && s.line.bus.rx.end == 0
    requires StationInv(Step(s, MainTick(o), t), t)
    requires Step(s, MainTick(o), t).line.bus.request.state == Waiting
    ensures var asked := Step(s, MainTick(o), t);
            var sent := Run(asked, WireEvents(asked.line), t);
            && StationInv(sent, t) && Listening(sent.line) && Waited(sent.line) == 0 && sent.meter == asked.meter
            && sent.line.frame == asked.line.frame && sent.line.sent == asked.line.frame
  {
    hide StationInv, TablesOk, Inv, Step, BusValid, MeterTick, Run;
    RequestStarts(s, t, o);
    var asked := Step(s, MainTick(o), t);
    StationLength(asked, t);
    var sent := WireIdles(asked, t);
    SentAll(asked, t);
    NotWaited(s.line, sent.line);
  }

  lemma NotWaited(before: Line, l: Line)
    requires l.clock == before.clock && l.bus.request.timeRef == Now(before)
    ensures Waited(l) == 0
  {}

  lemma SentAll(s: Station, t: Tables)
    requires TablesOk(t) && StationInv(s, t) && s.line.bus.wire == Transmitting && Awaits(s.line) && s.line.sent == []
    requires s.line.bus.rx.end == 0
    ensures BusValid(s.line.bus)
    ensures var sent := Run(s, WireEvents(s.line), t);
            sent.line.bus.rx.end == 0 && Awaits(sent.line) && sent.line.frame == sent.line.sent == s.line.frame &&
            sent.line.clock == s.line.clock
  {
    hide DriverShape, Agrees, TablesOk, MeterTick, OnRs485Tick, OnTxInterrupt, Inv, Run;
    StationLength(s, t);
    RunTwo(s, TxIrq(R.Used(s.line.bus.tx) + 1), BusTick([]), t);
    AllClockedOut(s.line);
  }

  lemma AllClockedOut(l: Line)
    requires Inv(l) && l.bus.wire == Transmitting && Awaits(l) && l.sent == [] && l.bus.rx.end == 0
    ensures BusValid(l.bus)
    ensures var out := OnTxInterrupt(l, R.Used(l.bus.tx) + 1);
            && BusValid(out.bus) && out.bus.lastLength <= out.bus.rx.size
            && var after := OnRs485Tick(out, []);
               after.bus.rx.end == 0 && Awaits(after) && after.frame == after.sent == l.frame
  {
    TransmitKeeps(l, R.Used(l.bus.tx) + 1);
    var out := OnTxInterrupt(l, R.Used(l.bus.tx) + 1);
    ReceivedFits(l);
    ReceivedFits(out);
    SentAre(l);
    NoBroadcast(out);
    hide Inv, BusValid, R.Remove, R.Items;
  }

  // Everything that was queued is handed out.
  lemma SentAre(l: Line)
    requires Inv(l) && Awaits(l) && l.sent == []
    ensures BusValid(l.bus) && Transmitted(l.bus, R.Used(l.bus.tx) + 1) == l.frame
  {
    hide Crc16.Accepted, ValidReply;
    assert l.frame[..l.bus.tx.start] == [];
    assert R.Items(l.bus.tx) == l.bus.tx.memory[..|l.frame|];
  }

  lemma NoBroadcast(l: Line)
    requires Inv(l) && l.bus.request.state == Waiting
    ensures BusValid(l.bus) && l.bus.tx.memory[0] != 0
  {
    hide Crc16.Accepted, ValidReply;
    Prefix(l.bus.tx.memory, l.frame);
  }

  // ----- Exceptions -------------------------------------------------------------------------------

  // The count kept of an exception code; codes above 4 are not counted.
  function ExceptionCount(c: Counters, code: bv8): nat {
    match code
    case 1 => c.illegalFunction
    case 2 => c.illegalAddress
    case 3 => c.illegalValue
    case 4 => c.deviceFailure
    case _ => 0
  }

  // A checked reply whose function code has the exception flag is a failure, and its code, the third byte that was
  // checked, is the one that is counted.
  lemma ExceptionIsCounted(l: Line, fc: FunctionCode)
    requires Inv(l) && BusValid(l.bus) && ResponseReady(l.bus, CodeOf(fc)) && !l.bus.request.timedOut
    ensures |l.validated| >= 3 && |l.frame| >= 2
    ensures ResponseOf(l, fc).Failed? <==> l.validated[1] == l.frame[1] + 0x80
    ensures var before, after := l.bus.counters, OnNoteException(l).bus.counters;
            forall code :: 1 <= code <= 4 ==>
              ExceptionCount(after, code) ==
                if l.validated[1] == l.frame[1] + 0x80 && code == l.validated[2]
                then Bump(ExceptionCount(before, code)) else ExceptionCount(before, code)
  {}
}
