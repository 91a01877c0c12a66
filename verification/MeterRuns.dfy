/** Every run of bus and meter drivers: one request at a time, and only checked responses are used. */
module MeterRuns {
  import opened Wrappers
  import opened Clock
  import opened Modbus
  import opened ModbusLine
  import opened MeterScan
  import opened MeterDrivers
  import opened Requests
  import Crc16
  import R = Ringbuffers

  // ----- What the drivers wait for ----------------------------------------------------------------

  function AskedIf(b: bool, q: Question): Option<Question> { if b then Some(q) else None }

  function DetectionAsks(d: Detection): Option<Question> {
    if d.find == 0 then AskedIf(d.generic == 1, Reading(ReadHolding, Slave01, 0x100D, 1))
    else if d.find == 1 then AskedIf(d.eastron == 1, Reading(ReadHolding, Slave01, 64515, 1))
    else if d.find == 2 then
      (if d.eltako == 1 then Some(Reading(ReadHolding, Slave01, 64515, 2))
       else if d.eltako == 3 then Some(Reading(ReadHolding, Slave01, 64525, 2))
       else if d.eltako == 5 then Some(Writing(WriteSingle, Slave01, 63767, Word(0, 0, 0, 0)))
       else if d.eltako == 7 then Some(Writing(WriteSingle, Slave01, 63768, Word(0, 0, 0, 1)))
       else None)
    else if d.find == 3 then AskedIf(d.iskra == 1, Reading(ReadInput, Slave21, 2, 4))
    else None
  }

  // The register of a table entry.
  function EntryQuestion(slave: Slave, d: Definition): Question {
    Reading(ReadInput, slave, d.register, RegisterSize(d))
  }

  function EntryAsked(m: Meter, t: Table, position: nat): Option<Question> {
    if position < |t| then Some(EntryQuestion(m.slave, t[position])) else None
  }

  function GenericAsks(m: Meter, t: Table): Option<Question> {
    if m.state == 1 then EntryAsked(m, t, Position(m.scan)) else None
  }

  function EastronAsks(m: Meter, t: Table): Option<Question> {
    if m.state == 1 then EntryAsked(m, t, Position(m.scan))
    else if m.state == 3 then Some(Reading(ReadHolding, m.slave, 11, 2))
    else if m.state == 5 then Some(Writing(WriteMultiple, m.slave, if m.meterType.Sdm72V2? then 15 else 25, PASSWORD))
    else if m.state == 7 then
      Some(Writing(WriteMultiple, m.slave, 11, if OnlyFirst(m.readings.phases) then ONE_PHASE else THREE_PHASES))
    else None
  }

  // The fast tick has the channel while it is active.
  function IskraAsks(m: Meter, t: Table): Option<Question> {
    if m.fast.active then
      if m.fast.state == 1 then Some(Reading(ReadInput, m.slave, 106, 8))
      else if m.fast.state == 3 then Some(Reading(ReadInput, m.slave, 127, 6))
      else None
    else if m.state == 1 then EntryAsked(m, t, m.scan.fullPosition)
    else if m.state == 4 then Some(Reading(ReadHolding, m.slave, 7001, 1))
    else if m.state == 6 then Some(Reading(ReadHolding, m.slave, 7053, 1))
    else None
  }

  // One read fetches everything from the first register on.
  function EltakoAsks(m: Meter, t: Table): Option<Question> {
    if (m.state == 1 || m.state == 2) && |t| > 0 then Some(Reading(ReadInput, m.slave, t[0].register, ELTAKO_REGISTERS))
    else None
  }

  // The question a driver waits to be answered in its present state.
  function Asks(m: Meter, t: Tables): Option<Question> {
    var table := TableOf(t, m.meterType);
    if m.meterType.Unknown? then DetectionAsks(m.detection)
    else if IsEastron(m.meterType) then EastronAsks(m, table)
    else if IsGeneric(m.meterType) then GenericAsks(m, table)
    else if IsIskra(m.meterType) then IskraAsks(m, table)
    else if IsEltako(m.meterType) then EltakoAsks(m, table)
    else None
  }

  // ----- What holds of the drivers ------------------------------------------------------------------

  predicate DetectionShape(d: Detection) {
    d.find <= 4 && d.generic <= 1 && d.eastron <= 1 && d.eltako <= 7 && d.iskra <= 1 &&
    (d.find != 0 ==> d.generic == 0) && (d.find != 1 ==> d.eastron == 0) &&
    (d.find != 2 ==> d.eltako == 0) && (d.find != 3 ==> d.iskra == 0)
  }

  predicate Untouched(m: Meter) {
    m.state == 0 && m.scan.fullPosition == 0 && m.scan.fastPosition == 0 && m.fast.state == 0 && !m.fast.active &&
    !m.eltako.isNew && m.eltako.index == 0 && |m.eltako.data| == ELTAKO_REGISTERS
  }

  predicate IskraShape(m: Meter) {
    (m.fast.active <==> 1 <= m.fast.state <= 3) && m.fast.state <= 3 && (m.fast.active ==> m.state == 0)
  }

  predicate DriverShape(m: Meter, t: Tables) {
    MeterShape(m, t) &&
    (m.meterType.Unknown? ==> DetectionShape(m.detection) && Untouched(m)) &&
    (IsIskra(m.meterType) ==> IskraShape(m)) &&
    (IsEltako(m.meterType) && m.state == 2 ==> m.eltako.isNew) &&
    (m.slave.NoSlave? ==> m.meterType.Unknown? || m.meterType.Unsupported?)
  }

  // The bus waits for a response exactly when the driver does, and the frame in flight is the driver's question.
  predicate FrameAsks(frame: seq<bv8>, q: Question) { frame == Crc16.WithCrc(PayloadOf(q)) }

  predicate AgreesWith(l: Line, asks: Option<Question>) {
    match asks
    case None => l.bus.request.state == Ready
    case Some(q) => l.bus.request.state == Waiting && FrameAsks(l.frame, q)
  }

  predicate Agrees(l: Line, m: Meter, t: Tables) { AgreesWith(l, Asks(m, t)) }

  predicate StationInv(s: Station, t: Tables) {
    Inv(s.line) && DriverShape(s.meter, t) && Agrees(s.line, s.meter, t)
  }

  // ----- The bus operations of a driver ---------------------------------------------------------------

  lemma InvValid(l: Line)
    requires Inv(l)
    ensures BusValid(l.bus)
  {}

  // What is queued for a payload is the payload with its checksum.
  lemma PayloadKeeps(l: Line, payload: seq<bv8>, responseLength: nat)
    requires Inv(l) && l.bus.request.state == Ready
    requires 4 <= |payload| <= 11 && payload[0] != 0
    ensures BusValid(l.bus)
    ensures var after := OnSend(l, payload, responseLength);
            Inv(after) && after.bus.request.state == Waiting && after.frame == Crc16.WithCrc(payload)
  {
    hide Inv, OnSend, BusValid, Crc16.WithCrc;
    InvValid(l);
    RoomForRequest(l.bus);
    SendKeeps(l, payload, responseLength);
  }

  lemma RoomForRequest(b: Bus)
    requires BusValid(b)
    ensures b.tx.size >= 14
  {}

  lemma AskKeeps(l: Line, fc: FunctionCode, slave: Slave, register: nat, count: nat)
    requires Inv(l) && l.bus.request.state == Ready && !slave.NoSlave?
    ensures BusValid(l.bus)
    ensures var after := Ask(l, fc, slave, register, count);
            Inv(after) && after.bus.request.state == Waiting &&
            FrameAsks(after.frame, Reading(fc, slave, register, count))
  {
    hide Inv, OnSend, BusValid, Header, CodeOf, Crc16.WithCrc;
    PayloadKeeps(l, ReadPayload(CodeOf(fc), AddressOf(slave), register, count), 10);
  }

  lemma AskWriteKeeps(l: Line, fc: FunctionCode, slave: Slave, register: nat, value: Word)
    requires Inv(l) && l.bus.request.state == Ready && !slave.NoSlave?
    ensures BusValid(l.bus)
    ensures var after := AskWrite(l, fc, slave, register, value);
            Inv(after) && after.bus.request.state == Waiting &&
            FrameAsks(after.frame, Writing(fc, slave, register, value))
  {
    hide Inv, OnSend, BusValid, WritePayload, CodeOf, Crc16.WithCrc;
    PayloadKeeps(l, WritePayload(CodeOf(fc), AddressOf(slave), register, value), 13);
  }

  lemma DoneKeeps(l: Line)
    requires Inv(l)
    ensures Inv(Done(l)) && Done(l).bus.request.state == Ready && Inv(OnClear(l)) &&
            OnClear(l).bus.request.state == Ready
  {
    CountersKeep(l);
    ClearKeeps(OnNoteException(l));
    ClearKeeps(l);
  }

  // Counting an exception leaves the request as it is.
  lemma NoteKeeps(l: Line)
    requires Inv(l)
    ensures Inv(OnNoteException(l)) && OnNoteException(l).bus.request == l.bus.request &&
            OnNoteException(l).frame == l.frame
  {
    CountersKeep(l);
  }

  lemma ResetKeeps(l: Line)
    requires Inv(l)
    ensures Inv(OnResetCounters(l)) && OnResetCounters(l).bus.request == l.bus.request &&
            OnResetCounters(l).frame == l.frame
  {
    CountersKeep(l);
  }

  // ----- Detection ----------------------------------------------------------------------------------

  predicate FindAgrees(l: Line, d: Detection) {
    AgreesWith(l, DetectionAsks(d))
  }

  // What a detection step leaves: a detection that goes on agrees with the bus, a finished one has cleared it.
  predicate FindOk(f: Finding, find: nat) {
    Inv(f.line) && DetectionShape(f.detection) && f.detection.find == find &&
    (f.found.Detecting? ==> FindAgrees(f.line, f.detection)) &&
    (f.found.Is? ==> f.line.bus.request.state == Ready && (f.found.meterType.Unknown? ==> Finished(f.detection)))
  }

  predicate Finished(d: Detection) { d.generic == 0 && d.eastron == 0 && d.eltako == 0 && d.iskra == 0 }

  lemma GoesOn(l: Line, d: Detection, taken: Taken)
    requires Inv(l) && DetectionShape(d) && FindAgrees(l, d)
    ensures FindOk(Finding(l, d, Detecting, taken), d.find)
  {
    hide Inv, FindAgrees, DetectionShape;
  }

  lemma Concludes(l: Line, d: Detection, meterType: MeterType, taken: Taken)
    requires Inv(l) && DetectionShape(d) && l.bus.request.state == Ready && (meterType.Unknown? ==> Finished(d))
    ensures FindOk(Finding(l, d, Is(meterType), taken), d.find)
  {
    hide Inv, DetectionShape;
  }

  lemma Asking(l: Line, fc: FunctionCode, slave: Slave, register: nat, count: nat, d: Detection)
    requires Inv(l) && l.bus.request.state == Ready && !slave.NoSlave?
    requires DetectionShape(d) && DetectionAsks(d) == Some(Reading(fc, slave, register, count))
    ensures FindOk(Finding(Ask(l, fc, slave, register, count), d, Detecting, NoResponse), d.find)
  {
    hide Inv, Ask, DetectionShape, DetectionAsks, FrameAsks;
    AskKeeps(l, fc, slave, register, count);
    GoesOn(Ask(l, fc, slave, register, count), d, NoResponse);
  }

  lemma AskingWrite(l: Line, fc: FunctionCode, slave: Slave, register: nat, value: Word, d: Detection)
    requires Inv(l) && !slave.NoSlave? && DetectionShape(d)
    requires DetectionAsks(d) == Some(Writing(fc, slave, register, value))
    ensures BusValid(OnClear(l).bus)
    ensures FindOk(Finding(AskWrite(OnClear(l), fc, slave, register, value), d, Detecting, NoResponse), d.find)
  {
    hide Inv, AskWrite, DetectionShape, DetectionAsks, FrameAsks, OnClear, BusValid;
    DoneKeeps(l);
    InvValid(OnClear(l));
    AskWriteKeeps(OnClear(l), fc, slave, register, value);
    GoesOn(AskWrite(OnClear(l), fc, slave, register, value), d, NoResponse);
  }

  lemma GenericFindKeeps(l: Line, d: Detection)
    requires Inv(l) && DetectionShape(d) && d.find == 0 && FindAgrees(l, d)
    ensures FindOk(GenericFind(l, d), 0)
  {
    hide FrameAsks, Inv, Ask, Done, ResponseOf, Data, BusValid, FindOk;
    InvValid(l);
    if d.generic == 0 {
      Asking(l, ReadHolding, Slave01, 0x100D, 1, d.(generic := 1));
    } else if ResponseOf(l, ReadHolding).Pending? {
      GoesOn(l, d, NoResponse);
    } else {
      DoneKeeps(l);
      Concludes(Done(l), d.(generic := 0), GenericFind(l, d).found.meterType, ReadResponse);
    }
  }

  lemma EastronFindKeeps(l: Line, d: Detection)
    requires Inv(l) && DetectionShape(d) && d.find == 1 && FindAgrees(l, d)
    ensures FindOk(EastronFind(l, d), 1)
  {
    hide FrameAsks, Inv, Ask, Done, ResponseOf, Data, BusValid, EastronCode, FindOk;
    InvValid(l);
    if d.eastron == 0 {
      Asking(l, ReadHolding, Slave01, 64515, 1, d.(eastron := 1));
    } else if ResponseOf(l, ReadHolding).Pending? {
      GoesOn(l, d, NoResponse);
    } else {
      DoneKeeps(l);
      Concludes(Done(l), d.(eastron := 0), EastronFind(l, d).found.meterType, ReadResponse);
    }
  }

  lemma EltakoFindKeeps(l: Line, d: Detection)
    requires Inv(l) && DetectionShape(d) && d.find == 2 && FindAgrees(l, d)
    ensures FindOk(EltakoFind(l, d), 2)
  {
    hide FrameAsks, Inv, Ask, Done, ResponseOf, Data, BusValid, EltakoDirection, FindOk;
    InvValid(l);
    if d.eltako >= 4 {
      EltakoDirectionKeeps(l, d);
    } else if d.eltako == 0 {
      Asking(l, ReadHolding, Slave01, 64515, 2, d.(eltako := 1));
    } else if d.eltako == 2 {
      Asking(l, ReadHolding, Slave01, 64525, 2, d.(eltako := 3));
    } else if ResponseOf(l, ReadHolding).Pending? {
      GoesOn(l, d, NoResponse);
    } else {
      DoneKeeps(l);
      if d.eltako == 1 {
        GoesOn(Done(l), d.(eltako := 2), ReadResponse);
        Concludes(Done(l), d.(eltako := 0), Unknown, ReadResponse);
      } else {
        GoesOn(Done(l), d.(eltako := 4), ReadResponse);
        Concludes(Done(l), d, Dsz15Dzmod, ReadResponse);
      }
    }
  }

  lemma EltakoDirectionKeeps(l: Line, d: Detection)
    requires Inv(l) && DetectionShape(d) && d.find == 2 && d.eltako >= 4 && FindAgrees(l, d)
    ensures FindOk(EltakoDirection(l, d), 2)
  {
    hide FrameAsks, Inv, AskWrite, Done, ResponseOf, BusValid, OnClear, FindOk;
    InvValid(l);
    if d.eltako == 4 {
      AskingWrite(l, WriteSingle, Slave01, 63767, Word(0, 0, 0, 0), d.(eltako := 5));
    } else if d.eltako == 6 {
      AskingWrite(l, WriteSingle, Slave01, 63768, Word(0, 0, 0, 1), d.(eltako := 7));
    } else if ResponseOf(l, WriteSingle).Pending? {
      GoesOn(l, d, NoResponse);
    } else {
      DoneKeeps(l);
      if d.eltako == 5 {
        GoesOn(Done(l), d.(eltako := 6), WriteResponse);
      } else {
        Concludes(Done(l), d.(eltako := 0), Dsz16Dze, WriteResponse);
      }
    }
  }

  lemma IskraFindKeeps(l: Line, d: Detection)
    requires Inv(l) && DetectionShape(d) && d.find == 3 && FindAgrees(l, d)
    ensures FindOk(IskraFind(l, d), 3)
  {
    hide FrameAsks, Inv, Ask, Done, ResponseOf, Data, BusValid, IskraModel, ResponseWord, FindOk;
    InvValid(l);
    if d.iskra == 0 {
      Asking(l, ReadInput, Slave21, 2, 4, d.(iskra := 1));
    } else if ResponseOf(l, ReadInput).Pending? {
      GoesOn(l, d, NoResponse);
    } else {
      DoneKeeps(l);
      Concludes(Done(l), d.(iskra := 0), IskraFind(l, d).found.meterType, ReadResponse);
    }
  }

  lemma FindStepKeeps(l: Line, d: Detection)
    requires Inv(l) && DetectionShape(d) && d.find <= 3 && FindAgrees(l, d)
    ensures FindOk(FindStep(l, d), d.find)
  {
    hide Inv, BusValid, FindOk, FindAgrees, DetectionShape, GenericFind, EastronFind, EltakoFind, IskraFind;
    InvValid(l);
    if d.find == 0 {
      GenericFindKeeps(l, d);
    } else if d.find == 1 {
      EastronFindKeeps(l, d);
    } else if d.find == 2 {
      EltakoFindKeeps(l, d);
    } else {
      IskraFindKeeps(l, d);
    }
  }

  lemma FindMeterTypeKeeps(l: Line, m: Meter, t: Tables)
    requires Inv(l) && TablesOk(t) && DriverShape(m, t) && Agrees(l, m, t) && m.meterType.Unknown?
    ensures BusValid(l.bus) && StationInv(FindMeterType(l, m), t)
  {
    hide Inv, FindStep, OnResetCounters, FrameAsks, BusValid, TablesOk, StationInv;
    InvValid(l);
    var d := m.detection;
    if d.find > 3 {
      NotFound(l, m, d.(find := 0), t);
    } else {
      FindStepKeeps(l, d);
      var f := FindStep(l, d);
      var line := OnResetCounters(f.line);
      var n := AfterFinding(m, l, f);
      ResetKeeps(f.line);
      AfterResponseIs(m, l, f.taken.ReadResponse?);
      hide AfterResponse;
      if f.found.Detecting? {
        NotFound(line, n, f.detection, t);
        assert n.(detection := f.detection) == n;
      } else if f.found.meterType.Unknown? {
        NotFound(line, n, f.detection.(find := d.find + 1), t);
      } else {
        MeterFound(line, SetMeterType(n, f.found.meterType, Now(l)).(detection := f.detection.(find := 0)), t);
      }
    }
  }

  lemma AfterResponseIs(m: Meter, l: Line, read: bool)
    requires BusValid(l.bus)
    ensures var n := AfterResponse(m, l, read); n == m.(guard := n.guard, readings := n.readings)
  {
    hide BusValid, HasError;
  }

  lemma NotFound(l: Line, m: Meter, d: Detection, t: Tables)
    requires Inv(l) && m.meterType.Unknown? && Untouched(m) && DetectionShape(d) && AgreesWith(l, DetectionAsks(d))
    ensures StationInv(Station(l, m.(detection := d)), t)
  {
    hide Inv, DetectionShape, AgreesWith, DetectionAsks;
  }

  lemma MeterFound(l: Line, m: Meter, t: Tables)
    requires Inv(l) && TablesOk(t) && !m.meterType.Unknown? && Untouched(m) && l.bus.request.state == Ready
    requires !m.slave.NoSlave? || m.meterType.Unsupported?
    ensures StationInv(Station(l, m), t)
  {
    hide Inv, HasKind, Terminated, Count;
    CountPositive(t);
  }

  lemma CountPositive(t: Tables)
    requires TablesOk(t)
    ensures Count(t.sdm72v2) > 0 && Count(t.sdm630) > 0 && Count(t.dem4a) > 0 && Count(t.dmed341mid7er) > 0
    ensures Count(t.wm3m4c) > 0 && Count(t.dsz15dzmod) > 0 && Count(t.dsz16dze) > 0
  {}

  // ----- Drivers --------------------------------------------------------------------------------------

  predicate LineOk(l: Line, asks: Option<Question>) { Inv(l) && AgreesWith(l, asks) }

  lemma Asked(l: Line, fc: FunctionCode, slave: Slave, register: nat, count: nat)
    requires LineOk(l, None) && !slave.NoSlave?
    ensures BusValid(l.bus) && LineOk(Ask(l, fc, slave, register, count), Some(Reading(fc, slave, register, count)))
  {
    hide Inv, Ask, BusValid, FrameAsks;
    InvValid(l);
    AskKeeps(l, fc, slave, register, count);
  }

  lemma AskedWrite(l: Line, fc: FunctionCode, slave: Slave, register: nat, value: Word)
    requires LineOk(l, None) && !slave.NoSlave?
    ensures BusValid(OnClear(l).bus)
    ensures LineOk(AskWrite(OnClear(l), fc, slave, register, value), Some(Writing(fc, slave, register, value)))
  {
    hide Inv, OnClear, AskWrite, BusValid, FrameAsks;
    DoneKeeps(l);
    InvValid(OnClear(l));
    AskWriteKeeps(OnClear(l), fc, slave, register, value);
  }

  lemma Cleared(l: Line, asks: Option<Question>)
    requires LineOk(l, asks)
    ensures BusValid(l.bus) && LineOk(Done(l), None) && LineOk(OnClear(l), None)
  {
    hide Inv, Done, OnClear, BusValid, FrameAsks;
    InvValid(l);
    DoneKeeps(l);
  }

  predicate ScanOk(s: Station, m: Meter, t: Table, asks: Option<Question>) {
    LineOk(s.line, asks) && s.meter.meterType == m.meterType && s.meter.slave == m.slave && Positioned(s.meter, t)
  }

  lemma AskedFor(l: Line, slave: Slave, d: Definition)
    requires LineOk(l, None) && !slave.NoSlave?
    ensures BusValid(l.bus) && LineOk(AskFor(l, slave, d), Some(EntryQuestion(slave, d)))
  {
    Asked(l, ReadInput, slave, d.register, RegisterSize(d));
  }

  lemma LineValid(l: Line, asks: Option<Question>)
    requires LineOk(l, asks)
    ensures BusValid(l.bus)
  {
    hide Inv, BusValid;
    InvValid(l);
  }

  lemma RequestScanKeeps(l: Line, m: Meter, t: Table)
    requires LineOk(l, None) && Positioned(m, t) && !m.slave.NoSlave?
    ensures BusValid(l.bus)
    ensures var s := RequestScan(l, m, t);
            s.meter.state == 1 && ScanOk(s, m, t, EntryAsked(s.meter, t, Position(s.meter.scan)))
  {
    hide LineOk, AskFor, Elapsed, BusValid;
    LineValid(l, None);
    var s := RequestScan(l, m, t);
    AskedFor(l, m.slave, t[Position(s.meter.scan)]);
  }

  lemma ScanOnKeeps(c: Scan, t: Table, now: nat)
    requires HasBothKinds(t) && c.fullPosition < Count(t) && c.fastPosition < Count(t)
    ensures ScanOn(c, t, now).fullPosition < Count(t) && ScanOn(c, t, now).fastPosition < Count(t)
  {
    hide HasKind, Terminated, Count, Upward;
  }

  lemma ReadScanKeeps(l: Line, m: Meter, t: Table, o: Outside)
    requires LineOk(l, EntryAsked(m, t, Position(m.scan))) && Positioned(m, t) && HasBothKinds(t) && m.state == 1
    ensures BusValid(l.bus)
    ensures var s := ReadScan(l, m, t, o);
            && (s.meter.state == 1 ==> s == Station(l, m))
            && (s.meter.state != 1 ==> (s.meter.state == 0 || s.meter.state == 2) && ScanOk(s, m, t, None))
  {
    hide ScanOn, LineOk, Done, Elapsed, Terminated, Count, NextEntry, HasKind, ResponseOf, Data, AfterResponse,
         BusValid;
    Cleared(l, EntryAsked(m, t, Position(m.scan)));
    ScanOnKeeps(m.scan, t, Now(l));
    AfterResponseIs(m, l, true);
  }

  lemma GenericKeeps(l: Line, m: Meter, t: Table, o: Outside)
    requires LineOk(l, GenericAsks(m, t)) && Positioned(m, t) && HasBothKinds(t) && !m.slave.NoSlave?
    ensures BusValid(l.bus)
    ensures var s := GenericTick(l, m, t, o); ScanOk(s, m, t, GenericAsks(s.meter, t))
  {
    hide LineOk, Terminated, Count, HasKind, RequestScan, ReadScan, BusValid;
    LineValid(l, GenericAsks(m, t));
    if m.state == 0 {
      RequestScanKeeps(l, m, t);
    } else if m.state == 1 {
      ReadScanKeeps(l, m, t, o);
    }
  }

  lemma EastronReadTypeKeeps(l: Line, m: Meter, t: Table, o: Outside)
    requires LineOk(l, EastronAsks(m, t)) && Positioned(m, t) && 2 <= m.state <= 3 && !m.slave.NoSlave?
    ensures BusValid(l.bus)
    ensures var s := EastronReadType(l, m, o); ScanOk(s, m, t, EastronAsks(s.meter, t))
  {
    hide LineOk, Terminated, Count, BusValid, Ask, Done, ResponseOf, Data, FullScanDone, Misfit, AfterResponse;
    LineValid(l, EastronAsks(m, t));
    AfterResponseIs(m, l, true);
    if m.state == 2 {
      Asked(l, ReadHolding, m.slave, 11, 2);
    } else {
      Cleared(l, EastronAsks(m, t));
    }
  }

  lemma EastronWriteTypeKeeps(l: Line, m: Meter, t: Table)
    requires LineOk(l, EastronAsks(m, t)) && Positioned(m, t) && 4 <= m.state && !m.slave.NoSlave?
    ensures BusValid(l.bus)
    ensures var s := EastronWriteType(l, m); ScanOk(s, m, t, EastronAsks(s.meter, t))
  {
    hide LineOk, Terminated, Count, BusValid, AskWrite, Done, OnClear, ResponseOf, OnlyFirst, AllPhases, AfterResponse;
    LineValid(l, EastronAsks(m, t));
    AfterResponseIs(m, l, false);
    if m.state == 4 {
      AskedWrite(l, WriteMultiple, m.slave, if m.meterType.Sdm72V2? then 15 else 25, PASSWORD);
    } else if m.state == 6 {
      AskedWrite(l, WriteMultiple, m.slave, 11, ONE_PHASE);
      AskedWrite(l, WriteMultiple, m.slave, 11, THREE_PHASES);
    } else if m.state == 5 || m.state == 7 {
      Cleared(l, EastronAsks(m, t));
    }
  }

  lemma EastronKeeps(l: Line, m: Meter, t: Table, o: Outside)
    requires LineOk(l, EastronAsks(m, t)) && Positioned(m, t) && HasBothKinds(t) && !m.slave.NoSlave?
    ensures BusValid(l.bus)
    ensures var s := EastronTick(l, m, t, o); ScanOk(s, m, t, EastronAsks(s.meter, t))
  {
    hide LineOk, Terminated, Count, HasKind, RequestScan, ReadScan, EastronReadType, EastronWriteType, BusValid;
    LineValid(l, EastronAsks(m, t));
    if m.state == 0 {
      RequestScanKeeps(l, m, t);
    } else if m.state == 1 {
      ReadScanKeeps(l, m, t, o);
    } else if m.state <= 3 {
      EastronReadTypeKeeps(l, m, t, o);
    } else {
      EastronWriteTypeKeeps(l, m, t);
    }
  }

  predicate IskraOk(s: Station, m: Meter, t: Table) {
    ScanOk(s, m, t, IskraAsks(s.meter, t)) && IskraShape(s.meter)
  }

  lemma StoreBlockIs(m: Meter, l: Line, targets: seq<Target>)
    requires BusValid(l.bus) && |targets| <= 4
    ensures var n := StoreBlock(m, l, targets); n == m.(readings := n.readings)
    decreases |targets|
  {
    hide BusValid, ResponseWord;
  }

  lemma IskraFastKeeps(l: Line, m: Meter, t: Table, o: Outside)
    requires LineOk(l, IskraAsks(m, t)) && IskraShape(m) && Positioned(m, t) && !m.slave.NoSlave?
    requires m.fast.active || m.state == 0
    ensures BusValid(l.bus) && IskraOk(IskraFastTick(l, m, o), m, t)
  {
    hide LineOk, Terminated, Count, BusValid, Ask, Done, ResponseOf, AfterResponse, StoreBlock;
    LineValid(l, IskraAsks(m, t));
    var n := AfterResponse(m, l, true);
    AfterResponseIs(m, l, true);
    StoreBlockIs(n, l, FAST_VOLTAGES);
    StoreBlockIs(n, l, FAST_CURRENTS);
    if m.fast.state == 0 {
      Asked(l, ReadInput, m.slave, 106, 8);
    } else if m.fast.state == 2 {
      Asked(l, ReadInput, m.slave, 127, 6);
    } else {
      Cleared(l, IskraAsks(m, t));
    }
  }

  lemma IskraScanKeeps(l: Line, m: Meter, t: Table, o: Outside)
    requires LineOk(l, IskraAsks(m, t)) && IskraShape(m) && Positioned(m, t) && !m.slave.NoSlave?
    requires !m.fast.active && m.state <= 1
    ensures BusValid(l.bus) && IskraOk(IskraScan(l, m, t, o), m, t)
  {
    hide LineOk, BusValid, AskFor, Done, ResponseOf, Data, AfterResponse, RegisterSize;
    LineValid(l, IskraAsks(m, t));
    AfterResponseIs(m, l, true);
    if m.state == 0 {
      AskedFor(l, m.slave, t[m.scan.fullPosition]);
    } else {
      Cleared(l, IskraAsks(m, t));
    }
  }

  lemma IskraStatusKeeps(l: Line, m: Meter, t: Table, o: Outside)
    requires LineOk(l, IskraAsks(m, t)) && IskraShape(m) && Positioned(m, t) && !m.slave.NoSlave?
    requires !m.fast.active && m.state >= 2
    ensures BusValid(l.bus) && IskraOk(IskraStatus(l, m, o), m, t)
  {
    hide LineOk, Terminated, Count, BusValid, Ask, Done, ResponseOf, Data, AfterResponse, FullScanDone;
    LineValid(l, IskraAsks(m, t));
    AfterResponseIs(m, l, true);
    if m.state == 3 {
      Asked(l, ReadHolding, m.slave, 7001, 1);
    } else if m.state == 5 {
      Asked(l, ReadHolding, m.slave, 7053, 1);
    } else if m.state == 4 || m.state == 6 {
      Cleared(l, IskraAsks(m, t));
    }
  }

  lemma IskraKeeps(l: Line, m: Meter, t: Table, o: Outside)
    requires LineOk(l, IskraAsks(m, t)) && IskraShape(m) && Positioned(m, t) && !m.slave.NoSlave?
    ensures BusValid(l.bus) && IskraOk(IskraTick(l, m, t, o), m, t)
  {
    hide LineOk, Terminated, Count, BusValid, IskraFastTick, IskraScan, IskraStatus, IskraOk, IskraAsks, Elapsed;
    LineValid(l, IskraAsks(m, t));
    if FastTurn(l, m) {
      IskraFastKeeps(l, m, t, o);
    } else if m.state <= 1 {
      IskraScanKeeps(l, m, t, o);
    } else {
      IskraStatusKeeps(l, m, t, o);
    }
  }

  predicate EltakoInv(m: Meter, t: Table) { EltakoShape(m, t) && (m.state == 2 ==> m.eltako.isNew) }

  predicate EltakoOk(s: Station, m: Meter, t: Table) {
    LineOk(s.line, EltakoAsks(s.meter, t)) && s.meter.meterType == m.meterType && s.meter.slave == m.slave &&
    EltakoInv(s.meter, t)
  }

  lemma EltakoReadKeeps(l: Line, m: Meter, t: Table, o: Outside)
    requires LineOk(l, EltakoAsks(m, t)) && EltakoInv(m, t) && !m.slave.NoSlave? && m.state <= 1
    ensures BusValid(l.bus) && EltakoOk(EltakoTick(l, m, t, o), m, t)
  {
    hide LineOk, EltakoTable, BusValid, Ask, ResponseOf, AfterResponse, OnNoteException, ResponseWords;
    LineValid(l, EltakoAsks(m, t));
    EltakoTableHasEntry(t);
    AfterResponseIs(m, l, true);
    if m.state == 0 {
      Asked(l, ReadInput, m.slave, t[0].register, ELTAKO_REGISTERS);
    } else {
      Noted(l, EltakoAsks(m, t));
    }
  }

  lemma Noted(l: Line, asks: Option<Question>)
    requires LineOk(l, asks)
    ensures BusValid(l.bus) && LineOk(OnNoteException(l), asks)
  {
    hide Inv, OnNoteException, BusValid, FrameAsks;
    InvValid(l);
    NoteKeeps(l);
  }

  lemma EltakoTableHasEntry(t: Table)
    requires EltakoTable(t)
    ensures |t| > 0
  {}

  lemma EltakoEntry(t: Table, i: nat)
    requires EltakoTable(t) && i <= Count(t)
    ensures i < |t| && (t[i].register == 0 <==> i == Count(t)) && t[i].register <= 2 * ELTAKO_REGISTERS
  {}

  lemma EltakoHandleKeeps(l: Line, m: Meter, t: Table, o: Outside)
    requires LineOk(l, EltakoAsks(m, t)) && EltakoInv(m, t) && m.state == 2
    ensures BusValid(l.bus) && EltakoOk(EltakoHandle(l, m, t, o), m, t)
  {
    hide LineOk, EltakoTable, BusValid, OnClear;
    LineValid(l, EltakoAsks(m, t));
    EltakoEntry(t, m.eltako.index);
    Cleared(l, EltakoAsks(m, t));
  }

  lemma EltakoKeeps(l: Line, m: Meter, t: Table, o: Outside)
    requires LineOk(l, EltakoAsks(m, t)) && EltakoInv(m, t) && !m.slave.NoSlave?
    ensures BusValid(l.bus) && EltakoOk(EltakoTick(l, m, t, o), m, t)
  {
    hide LineOk, EltakoTable, BusValid, EltakoHandle, Ask, Elapsed, DerivedSteps;
    LineValid(l, EltakoAsks(m, t));
    if m.state <= 1 {
      hide EltakoTick, EltakoInv;
      EltakoReadKeeps(l, m, t, o);
    } else if m.state == 2 {
      EltakoHandleKeeps(l, m, t, o);
    }
  }

  // ----- One tick of whichever driver runs ------------------------------------------------------------

  lemma DriverTickKeeps(l: Line, m: Meter, t: Tables, o: Outside)
    requires TablesOk(t) && StationInv(Station(l, m), t) && !m.meterType.Unknown?
    ensures BusValid(l.bus) && StationInv(DriverTick(l, m, t, o), t)
  {
    hide Inv, BusValid, AgreesWith, Terminated, Count, HasKind, EltakoTable, EastronTick, GenericTick, IskraTick,
         EltakoTick, EastronAsks, IskraAsks, IskraShape;
    InvValid(l);
    var table := TableOf(t, m.meterType);
    if IsEastron(m.meterType) {
      EastronKeeps(l, m, table, o);
    } else if IsGeneric(m.meterType) {
      GenericKeeps(l, m, table, o);
    } else if IsIskra(m.meterType) {
      IskraKeeps(l, m, table, o);
    } else if IsEltako(m.meterType) {
      EltakoKeeps(l, m, table, o);
    }
  }

  lemma GuardKeeps(l: Line, m: Meter, g: Guard, t: Tables)
    requires StationInv(Station(l, m), t)
    ensures StationInv(Station(l, m.(guard := g)), t)
  {
    hide Inv, AgreesWith, Terminated, Count, EltakoTable, DetectionShape, TableOf;
  }

  lemma MeterTickKeeps(l: Line, m: Meter, t: Tables, o: Outside)
    requires TablesOk(t) && StationInv(Station(l, m), t)
    ensures BusValid(l.bus) && StationInv(MeterTick(l, m, t, o), t)
  {
    hide Inv, BusValid, TablesOk, DriverShape, Agrees, DriverTick, FindMeterType, Awake, Watched;
    InvValid(l);
    ShapeForTick(m, t);
    if !m.guard.stuck && !m.meterType.Unsupported? {
      var (awake, guard) := Awake(m.guard, Now(l));
      GuardKeeps(l, m, guard, t);
      if awake && m.meterType.Unknown? {
        FindMeterTypeKeeps(l, m.(guard := guard), t);
      } else if awake {
        var n := m.(guard := Watched(guard, m.state, Now(l)));
        GuardKeeps(l, m, n.guard, t);
        DriverTickKeeps(l, n, t, o);
      }
    }
  }

  lemma ShapeForTick(m: Meter, t: Tables)
    requires DriverShape(m, t)
    ensures MeterShape(m, t)
  {}

  // ----- Every run ------------------------------------------------------------------------------------

  datatype Event =
    | Pass(ms: nat)                          // the clock
    | RxIrq(bytes: seq<bv8>)                 // receive interrupt
    | TxIrq(room: nat)                       // transmit interrupt, at any time
    | BusTick(bytes: seq<bv8>)               // rs485_tick
    | MainTick(o: Outside)                   // meter_tick

  function Step(s: Station, e: Event, t: Tables): (after: Station)
    requires TablesOk(t) && StationInv(s, t)
  {
    InvValid(s.line);
    ShapeForTick(s.meter, t);
    InvLength(s.line);
    match e
    case Pass(ms) => s.(line := Advance(s.line, ms))
    case RxIrq(bytes) => s.(line := OnRxInterrupt(s.line, bytes))
    case TxIrq(room) => s.(line := OnTxInterrupt(s.line, room))
    case BusTick(bytes) => s.(line := OnRs485Tick(s.line, bytes))
    case MainTick(o) => MeterTick(s.line, s.meter, t, o)
  }

  lemma InvLength(l: Line)
    requires Inv(l)
    ensures BusValid(l.bus) && l.bus.lastLength <= l.bus.rx.size
  {}

  // The events of the bus change neither the request in flight nor its state.
  lemma BusEventKeeps(s: Station, e: Event, t: Tables)
    requires TablesOk(t) && StationInv(s, t) && !e.MainTick?
    ensures var l, after := s.line, Step(s, e, t).line;
            Inv(after) && after.frame == l.frame && after.bus.request.state == l.bus.request.state
  {
    hide Inv, BusValid, DriverShape, Agrees, TablesOk, MeterShape, Rs485Tick, OnTxInterrupt, OnRxInterrupt,
         OnRs485Tick, OnEvent;
    InvValid(s.line);
    InvLength(s.line);
    ShapeForTick(s.meter, t);
    match e
    case Pass(ms) => AdvanceKeeps(s.line, ms);
    case RxIrq(bytes) => ReceivedKeeps(s.line, bytes); OnRxIs(s.line, bytes);
    case TxIrq(room) => TransmitKeeps(s.line, room); OnTxIs(s.line, room);
    case BusTick(bytes) => Rs485TickKeeps(s.line, bytes); OnTickIs(s.line, bytes);
  }

  lemma OnRxIs(l: Line, bytes: seq<bv8>)
    requires BusValid(l.bus)
    ensures OnRxInterrupt(l, bytes).frame == l.frame && OnRxInterrupt(l, bytes).bus.request == l.bus.request
  {
    hide BusValid, ReceiveAll;
  }

  lemma OnTxIs(l: Line, room: nat)
    requires BusValid(l.bus)
    ensures OnTxInterrupt(l, room).frame == l.frame && OnTxInterrupt(l, room).bus.request == l.bus.request
  {
    hide BusValid, R.Remove, R.Items;
  }

  lemma OnTickIs(l: Line, bytes: seq<bv8>)
    requires BusValid(l.bus) && l.bus.lastLength <= l.bus.rx.size
    ensures var after := OnRs485Tick(l, bytes);
            after.frame == l.frame && after.bus.request.state == l.bus.request.state &&
            (l.bus.request.timedOut ==> after.bus.request.timedOut)
  {
    hide BusValid, ReceiveAll, IdleEvent, Elapsed, EventOf;
  }

  lemma StepKeeps(s: Station, e: Event, t: Tables)
    requires TablesOk(t) && StationInv(s, t)
    ensures StationInv(Step(s, e, t), t)
  {
    hide Inv, BusValid, DriverShape, TablesOk, MeterTick, Advance, OnRs485Tick, OnTxInterrupt, OnRxInterrupt, Asks,
         FrameAsks;
    if e.MainTick? {
      MeterTickKeeps(s.line, s.meter, t, e.o);
    } else {
      BusEventKeeps(s, e, t);
    }
  }

  // Only the passing of time moves the clock.
  lemma ClockMoves(s: Station, e: Event, t: Tables)
    requires TablesOk(t) && StationInv(s, t)
    ensures Step(s, e, t).line.clock == s.line.clock + if e.Pass? then e.ms else 0
  {
    hide TablesOk, Inv, DriverShape, Agrees, BusValid, MeterShape, MeterTick, OnRs485Tick, OnRxInterrupt, OnTxInterrupt;
    InvLength(s.line);
    ShapeForTick(s.meter, t);
  }

  function Run(s: Station, events: seq<Event>, t: Tables): Station
    requires TablesOk(t) && StationInv(s, t)
    decreases |events|
  {
    if events == [] then s else
    StepKeeps(s, events[0], t);
    Run(Step(s, events[0], t), events[1..], t)
  }

  lemma {:induction false} RunKeeps(s: Station, events: seq<Event>, t: Tables)
    requires TablesOk(t) && StationInv(s, t)
    ensures StationInv(Run(s, events, t), t)
    decreases |events|
  {
    hide StationInv, TablesOk, Step;
    if events != [] {
      StepKeeps(s, events[0], t);
      RunKeeps(Step(s, events[0], t), events[1..], t);
    }
  }

  lemma {:induction false} RunOneMore(s: Station, events: seq<Event>, i: nat, t: Tables)
    requires TablesOk(t) && StationInv(s, t) && i < |events|
    ensures StationInv(Run(s, events[..i], t), t)
    ensures Run(s, events[..i + 1], t) == Step(Run(s, events[..i], t), events[i], t)
    decreases i
  {
    hide StationInv, TablesOk, Step;
    RunKeeps(s, events[..i], t);
    var e := events[0];
    StepKeeps(s, e, t);
    assert events[..i + 1][0] == e && events[..i + 1][1..] == events[1..][..i];
    if i > 0 {
      assert events[..i][0] == e && events[..i][1..] == events[1..][..i - 1];
      RunOneMore(Step(s, e, t), events[1..], i - 1, t);
    } else {
      assert events[..i] == [] && events[1..][..i] == [];
    }
  }

  // meter_init
  function BootMeter(now: nat): Meter {
    var zero := Word(0, 0, 0, 0);
    Meter(Unknown, NoSlave, 0, Detection(0, 0, 0, 0, 0), Fast(0, false, 0),
          Eltako(0, seq(ELTAKO_REGISTERS, i => zero), false, 0),
          Scan(0, 0, now, false, false, false), Guard(now, 0, 0, 255, false),
          Readings(map[], Phases(false, false, false), false, zero, false, zero, zero))
  }

  function BootLine(bus: Bus, clock: nat): Line { Line(bus, clock, [], [], 0, 0, 0, 0, clock, [], false, 0, []) }

  lemma BootStation(bus: Bus, clock: nat, t: Tables)
    requires TablesOk(t) && Boots(bus) && bus.mode == Master && bus.time4Chars == Stamp(clock)
    ensures StationInv(Station(BootLine(bus, clock), BootMeter(Stamp(clock))), t)
  {
    Boot(bus, clock);
    hide Inv, TablesOk;
  }

  // A station that bus and meter reach from boot by some sequence of events.
  ghost predicate Reached(s: Station, t: Tables)
    requires TablesOk(t)
  {
    exists bus, clock: nat, events :: IsRun(s, t, bus, clock, events)
  }

  ghost predicate IsRun(s: Station, t: Tables, bus: Bus, clock: nat, events: seq<Event>)
    requires TablesOk(t)
  {
    Boots(bus) && bus.mode == Master && bus.time4Chars == Stamp(clock) &&
    (BootStation(bus, clock, t);
     s == Run(Station(BootLine(bus, clock), BootMeter(Stamp(clock))), events, t))
  }

  // Whatever the order of driver ticks, bus ticks, interrupts and time: after every run from boot, the
  // line is in order, the bus waits exactly when the driver does, and the frame in flight is its question.
  lemma EveryRun(s: Station, t: Tables)
    requires TablesOk(t) && Reached(s, t)
    ensures StationInv(s, t)
  {
    hide StationInv, Run, Boots, TablesOk, BootLine, BootMeter;
    var bus, clock: nat, events :| IsRun(s, t, bus, clock, events);
    BootStation(bus, clock, t);
    RunKeeps(Station(BootLine(bus, clock), BootMeter(Stamp(clock))), events, t);
  }

  // ----- What every run keeps ---------------------------------------------------------------------------

  // The Iskra driver's two state machines share the channel: the bus waits exactly in these states, and
  // the fast reads only run while the full scan stands in state 0.
  lemma IskraWaitsInv(s: Station, t: Tables)
    requires StationInv(s, t) && IsIskra(s.meter.meterType)
    ensures s.line.bus.request.state == Waiting <==>
            (s.meter.fast.active && s.meter.fast.state in {1, 3}) ||
            (!s.meter.fast.active && s.meter.state in {1, 4, 6})
    ensures s.meter.fast.active ==> s.meter.state == 0
  {
    hide Inv, FrameAsks, Terminated, Count, TableOf;
    PositionsInTable(s.meter, TableOf(t, s.meter.meterType));
  }

  lemma PositionsInTable(m: Meter, t: Table)
    ensures Positioned(m, t) ==> m.scan.fullPosition < |t| && Position(m.scan) < |t|
    ensures EltakoShape(m, t) ==> |t| > 0
  {}

  lemma OthersWaitInv(s: Station, t: Tables)
    requires StationInv(s, t)
    ensures IsEastron(s.meter.meterType) ==> (s.line.bus.request.state == Waiting <==> s.meter.state in {1, 3, 5, 7})
    ensures IsGeneric(s.meter.meterType) ==> (s.line.bus.request.state == Waiting <==> s.meter.state == 1)
    ensures IsEltako(s.meter.meterType) ==> (s.line.bus.request.state == Waiting <==> s.meter.state in {1, 2})
  {
    hide Inv, FrameAsks, Positioned, EltakoShape, TableOf;
    PositionsInTable(s.meter, TableOf(t, s.meter.meterType));
  }

  // Nothing of a finished request is left behind.
  predicate LeavesNothing(l: Line) {
    l.bus.request.state == Ready && !l.bus.request.cbInvoke && !l.bus.request.timedOut && l.bus.wire == Idle &&
    l.bus.lastLength == 0 && l.bus.rx.start == l.bus.rx.end == 0 && l.bus.tx.start == l.bus.tx.end == 0
  }

  // A request in flight is either finished and cleared or left alone.
  predicate KeepsRequest(before: Line, after: Line) {
    LeavesNothing(after) ||
    (after.bus.tx == before.bus.tx && after.frame == before.frame && after.bus.request == before.bus.request)
  }

  lemma DoneClears(l: Line)
    requires BusValid(l.bus)
    ensures KeepsRequest(l, l) && KeepsRequest(l, Done(l)) && KeepsRequest(l, OnClear(l)) &&
            KeepsRequest(l, OnNoteException(l))
  {
    hide BusValid, IsException;
  }

  lemma ScanKeepsRequest(l: Line, m: Meter, t: Table, o: Outside)
    requires BusValid(l.bus) && Positioned(m, t) && HasBothKinds(t)
    ensures m.state == 1 ==> KeepsRequest(l, ReadScan(l, m, t, o).line)
    ensures GenericAsks(m, t).Some? ==> KeepsRequest(l, GenericTick(l, m, t, o).line)
    ensures EastronAsks(m, t).Some? ==> KeepsRequest(l, EastronTick(l, m, t, o).line)
  {
    hide BusValid, KeepsRequest, Done, ResponseOf, Data, AfterResponse, ScanOn, HasKind, Terminated, Count, Misfit;
    DoneClears(l);
  }

  lemma IskraKeepsRequest(l: Line, m: Meter, t: Table, o: Outside)
    requires BusValid(l.bus) && Positioned(m, t) && IskraShape(m) && IskraAsks(m, t).Some?
    ensures KeepsRequest(l, IskraTick(l, m, t, o).line)
  {
    hide BusValid, KeepsRequest, Done, ResponseOf, Data, AfterResponse, StoreBlock, Terminated, Count, Elapsed, Ask,
         AskFor;
    DoneClears(l);
  }

  lemma EltakoKeepsRequest(l: Line, m: Meter, t: Table, o: Outside)
    requires BusValid(l.bus) && EltakoShape(m, t) && EltakoAsks(m, t).Some?
    ensures KeepsRequest(l, EltakoTick(l, m, t, o).line)
  {
    hide BusValid, KeepsRequest, OnNoteException, OnClear, ResponseOf, AfterResponse, EltakoTable, Ask, ResponseWords;
    if m.state == 2 {
      EltakoIndex(m, t);
    }
    DoneClears(l);
  }

  lemma EltakoIndex(m: Meter, t: Table)
    requires EltakoShape(m, t) && m.state == 2
    ensures m.eltako.index < |t| && t[m.eltako.index].register <= 2 * ELTAKO_REGISTERS
  {}

  lemma DetectionKeepsRequest(l: Line, d: Detection)
    requires BusValid(l.bus) && DetectionAsks(d).Some?
    ensures KeepsRequest(l, FindStep(l, d).line)
  {
    hide BusValid, KeepsRequest, Done, ResponseOf, Data, EastronCode, IskraModel, ResponseWord, Ask, AskWrite;
    DoneClears(l);
  }

  // No tick of any driver writes into the transmit ring or restarts the timeout of a request that is
  // still waiting: one request at a time.
  lemma OneRequestAtATimeInv(s: Station, t: Tables, o: Outside)
    requires TablesOk(t) && StationInv(s, t) && s.line.bus.request.state == Waiting
    ensures KeepsRequest(s.line, Step(s, MainTick(o), t).line)
  {
    var l, m := s.line, s.meter;
    hide Inv, BusValid, TablesOk, KeepsRequest, MeterShape, Awake, Watched, FindMeterType, DriverTick, FrameAsks,
         TableOf;
    InvValid(l);
    ShapeForTick(m, t);
    DoneClears(l);
    if !m.guard.stuck && !m.meterType.Unsupported? {
      var (awake, guard) := Awake(m.guard, Now(l));
      if awake && m.meterType.Unknown? {
        FindKeepsRequest(l, m.(guard := guard));
      } else if awake {
        var n := m.(guard := Watched(guard, m.state, Now(l)));
        GuardShape(m, n.guard, t);
        DriverKeepsRequest(l, n, t, o);
      }
    }
  }

  lemma GuardShape(m: Meter, g: Guard, t: Tables)
    requires MeterShape(m, t)
    ensures MeterShape(m.(guard := g), t)
  {}

  lemma FindKeepsRequest(l: Line, m: Meter)
    requires BusValid(l.bus) && DetectionAsks(m.detection).Some?
    ensures KeepsRequest(l, FindMeterType(l, m).line)
  {
    hide BusValid, FindStep, AfterResponse;
    DetectionKeepsRequest(l, m.detection);
  }

  lemma DriverKeepsRequest(l: Line, m: Meter, t: Tables, o: Outside)
    requires BusValid(l.bus) && TablesOk(t) && MeterShape(m, t) && Asks(m, t).Some? && !m.meterType.Unknown?
    requires IsIskra(m.meterType) ==> IskraShape(m)
    ensures KeepsRequest(l, DriverTick(l, m, t, o).line)
  {
    var table := TableOf(t, m.meterType);
    hide BusValid, KeepsRequest, EastronTick, GenericTick, IskraTick, EltakoTick, Terminated, Count, HasKind,
         EltakoTable, IskraShape, EastronAsks, IskraAsks;
    if IsEastron(m.meterType) || IsGeneric(m.meterType) {
      ScanKeepsRequest(l, m, table, o);
    } else if IsIskra(m.meterType) {
      IskraKeepsRequest(l, m, table, o);
    } else {
      EltakoKeepsRequest(l, m, table, o);
    }
  }

  // A failure reported for a request stays reported: only a driver's clearing takes the flag back.
  lemma TimedOutIsStickyInv(s: Station, e: Event, t: Tables)
    requires TablesOk(t) && StationInv(s, t) && s.line.bus.request.timedOut
    ensures var after := Step(s, e, t).line;
            after.bus.request.timedOut || (e.MainTick? && after.bus.request.state == Ready)
  {
    hide Inv, BusValid, DriverShape, TablesOk, MeterShape, MeterTick, Rs485Tick, OnTxInterrupt, OnRxInterrupt,
         OnRs485Tick, OnEvent, Agrees;
    InvValid(s.line);
    InvLength(s.line);
    ShapeForTick(s.meter, t);
    match e
    case Pass(ms) =>
    case RxIrq(bytes) => OnRxIs(s.line, bytes);
    case TxIrq(room) => OnTxIs(s.line, room);
    case BusTick(bytes) => OnTickIs(s.line, bytes);
    case MainTick(o) => TimedOutWaits(s.line); OneRequestAtATimeInv(s, t, o);
  }

  lemma TimedOutWaits(l: Line)
    requires Inv(l) && l.bus.request.timedOut
    ensures l.bus.request.state == Waiting
  {}

  // ----- The Iskra fast registers -----------------------------------------------------------------------

  // What a block response writes: the i-th word to the i-th target, nothing anywhere else.
  lemma {:induction false} StoreBlockWrites(m: Meter, l: Line, targets: seq<Target>)
    requires BusValid(l.bus) && |targets| <= 4 && forall i, j :: 0 <= i < j < |targets| ==> targets[i] != targets[j]
    ensures var before, after := m.readings.registers, StoreBlock(m, l, targets).readings.registers;
            && (forall i :: 0 <= i < |targets| ==>
                 targets[i] in after && after[targets[i]] == Converted(ResponseWord(l.bus, i), T5))
            && (forall target :: target !in targets ==> (target in after <==> target in before))
            && (forall target :: target in before && target !in targets ==> after[target] == before[target])
    decreases |targets|
  {
    hide BusValid, ResponseWord;
    if targets != [] {
      var n := |targets| - 1;
      StoreBlockWrites(m, l, targets[..n]);
      assert forall target :: target in targets <==> target in targets[..n] || target == targets[n];
    }
  }

  // A fast tick changes registers only while a response is held that is no exception, was not reported as
  // failed, and is backed by received bytes with correct checksum, slave address and function code.
  lemma FastRegistersBackedInv(s: Station, t: Tables, o: Outside)
    requires StationInv(s, t) && IsIskra(s.meter.meterType) && FastTurn(s.line, s.meter)
    ensures BusValid(s.line.bus)
    ensures var l := s.line;
            IskraFastTick(l, s.meter, o).meter.readings.registers != s.meter.readings.registers ==>
              && !HasError(l.bus)
              && |l.frame| >= 2 && ValidReply(l.validated, l.frame)
              && |l.validated| <= l.bus.rx.end && l.bus.rx.memory[..|l.validated|] == l.validated
  {
    hide Inv, BusValid, ValidReply, Done, Ask, HasError, StoreBlock, MeterShape, FrameAsks;
    var l, m := s.line, s.meter;
    InvValid(l);
    if ResponseOf(l, ReadInput).Good? {
      GoodIsBacked(l, ReadInput);
    }
  }

  // It then writes the seven registers of its two blocks, from the response in order, and no others.
  lemma FastRegistersWritten(l: Line, m: Meter, o: Outside)
    requires BusValid(l.bus) && ResponseOf(l, ReadInput).Good? && (m.fast.state == 1 || m.fast.state == 3)
    ensures var targets := if m.fast.state == 1 then FAST_VOLTAGES else FAST_CURRENTS;
            var before, after := m.readings.registers, IskraFastTick(l, m, o).meter.readings.registers;
            && (forall i :: 0 <= i < |targets| ==>
                 targets[i] in after && after[targets[i]] == Converted(ResponseWord(l.bus, i), T5))
            && (forall target :: target !in targets ==> (target in after <==> target in before))
            && (forall target :: target in before && target !in targets ==> after[target] == before[target])
  {
    hide BusValid, Done, HasError, ResponseWord, StoreBlock;
    var n := AfterResponse(m, l, true);
    StoreBlockWrites(n, l, FAST_VOLTAGES);
    StoreBlockWrites(n, l, FAST_CURRENTS);
  }

  lemma GoodIsBacked(l: Line, fc: FunctionCode)
    requires Inv(l) && BusValid(l.bus) && ResponseOf(l, fc).Good?
    ensures |l.frame| >= 2 && ValidReply(l.validated, l.frame)
    ensures |l.validated| <= l.bus.rx.end && l.bus.rx.memory[..|l.validated|] == l.validated
  {
    hide ValidReply, IsException;
  }

  // ----- A handed-over response is taken -----------------------------------------------------------------

  // What a tick of the meter does when it is neither waiting nor stuck.
  function Ticked(l: Line, m: Meter, t: Tables, o: Outside): Station
    requires BusValid(l.bus) && TablesOk(t) && MeterShape(m, t)
  {
    if m.meterType.Unknown? then FindMeterType(l, m) else DriverTick(l, m, t, o)
  }

  // How many ticks the Eltako driver still needs to handle its block value by value.
  function TicksLeft(m: Meter, t: Table): int { if m.state == 1 then Count(t) + 2 else Count(t) - m.eltako.index + 1 }

  predicate ComesCloser(before: Station, after: Station, t: Table) {
    after.meter.state == 2 && after.line.bus.request == before.line.bus.request &&
    0 < TicksLeft(after.meter, t) < TicksLeft(before.meter, t)
  }

  // With a response handed over, such a tick finishes the request, so that no driver waits for an answer it
  // has already got; the Eltako driver comes closer to that with every tick.
  lemma ResponseIsTakenInv(s: Station, t: Tables, o: Outside)
    requires TablesOk(t) && StationInv(s, t) && s.line.bus.request.state == Waiting && s.line.bus.request.cbInvoke
    ensures BusValid(s.line.bus) && MeterShape(s.meter, t)
    ensures var after := Ticked(s.line, s.meter, t, o);
            after.line.bus.request.state == Ready ||
            (IsEltako(s.meter.meterType) && ComesCloser(s, after, TableOf(t, s.meter.meterType)))
  {
    var l, m := s.line, s.meter;
    hide Inv, BusValid, FrameAsks, Terminated, Count, HasKind, EltakoTable, EastronTick, GenericTick, IskraTick,
         EltakoTick, EastronAsks, GenericAsks, IskraAsks, EltakoAsks, FindMeterType, DetectionAsks, ComesCloser;
    InvValid(l);
    var table, q := TableOf(t, m.meterType), Asks(m, t).value;
    ResponseArrived(l, q);
    ShapeForTick(m, t);
    hide IskraShape;
    if m.meterType.Unknown? {
      DetectionTakes(l, m);
    } else if IsEastron(m.meterType) {
      EastronTakes(l, m, table, o);
    } else if IsGeneric(m.meterType) {
      GenericTakes(l, m, table, o);
    } else if IsIskra(m.meterType) {
      IskraTakes(l, m, table, o);
    } else {
      EltakoComesCloser(l, m, table, o);
    }
  }

  lemma ResetIsReady(l: Line)
    ensures OnResetCounters(l).bus.request == l.bus.request
  {}

  lemma DetectionTakes(l: Line, m: Meter)
    requires BusValid(l.bus) && DetectionAsks(m.detection).Some?
    requires !ResponseOf(l, DetectionAsks(m.detection).value.fc).Pending?
    ensures FindMeterType(l, m).line.bus.request.state == Ready
  {
    hide BusValid, ResponseOf, Done, Data, EastronCode, IskraModel, ResponseWord, AfterFinding, OnResetCounters,
         SetMeterType, Ask, AskWrite;
    DoneIsReady(l);
    ResetIsReady(Done(l));
  }

  lemma EltakoComesCloser(l: Line, m: Meter, t: Table, o: Outside)
    requires BusValid(l.bus) && EltakoInv(m, t) && EltakoAsks(m, t).Some?
    requires !ResponseOf(l, EltakoAsks(m, t).value.fc).Pending?
    ensures var after := EltakoTick(l, m, t, o);
            after.line.bus.request.state == Ready || ComesCloser(Station(l, m), after, t)
  {
    hide BusValid, EltakoTable, ResponseOf, OnClear, OnNoteException, AfterResponse, ResponseWords, Ask, Count,
         Terminated;
    EltakoTableHasEntry(t);
    ClearIsReady(l);
    AfterResponseIs(m, l, true);
    if m.state == 2 {
      EltakoEntry(t, m.eltako.index);
    }
  }

  lemma ClearIsReady(l: Line)
    requires BusValid(l.bus)
    ensures OnClear(l).bus.request.state == Ready && OnNoteException(l).bus.request == l.bus.request
  {
    hide IsException;
  }

  lemma EastronTakes(l: Line, m: Meter, t: Table, o: Outside)
    requires BusValid(l.bus) && Positioned(m, t) && HasBothKinds(t)
    requires EastronAsks(m, t).Some? && !ResponseOf(l, EastronAsks(m, t).value.fc).Pending?
    ensures EastronTick(l, m, t, o).line.bus.request.state == Ready
  {
    hide BusValid, Terminated, Count, HasKind, ReadScan, ResponseOf, Done, RegisterSize, Misfit, AfterResponse, Data;
    DoneIsReady(l);
    if m.state == 1 {
      ReadScanTakes(l, m, t, o);
    }
  }

  lemma ReadScanTakes(l: Line, m: Meter, t: Table, o: Outside)
    requires BusValid(l.bus) && Positioned(m, t) && HasBothKinds(t) && !ResponseOf(l, ReadInput).Pending?
    ensures ReadScan(l, m, t, o).line.bus.request.state == Ready
  {
    hide BusValid, Terminated, Count, HasKind, Data, AfterResponse, ScanOn, ResponseOf, Done, RegisterSize;
    DoneIsReady(l);
  }

  lemma GenericTakes(l: Line, m: Meter, t: Table, o: Outside)
    requires BusValid(l.bus) && Positioned(m, t) && HasBothKinds(t)
    requires GenericAsks(m, t).Some? && !ResponseOf(l, GenericAsks(m, t).value.fc).Pending?
    ensures GenericTick(l, m, t, o).line.bus.request.state == Ready
  {
    hide BusValid, Terminated, Count, HasKind, ReadScan, ResponseOf, RegisterSize;
    ReadScanTakes(l, m, t, o);
  }

  lemma IskraTakes(l: Line, m: Meter, t: Table, o: Outside)
    requires BusValid(l.bus) && Positioned(m, t) && IskraShape(m)
    requires IskraAsks(m, t).Some? && !ResponseOf(l, IskraAsks(m, t).value.fc).Pending?
    ensures IskraTick(l, m, t, o).line.bus.request.state == Ready
  {
    hide BusValid, Terminated, Count, Data, AfterResponse, ResponseOf, Done, RegisterSize, StoreBlock, Elapsed;
    DoneIsReady(l);
  }

  lemma DoneIsReady(l: Line)
    requires BusValid(l.bus)
    ensures Done(l).bus.request.state == Ready
  {}

  lemma ResponseArrived(l: Line, q: Question)
    requires Inv(l) && l.bus.request.state == Waiting && l.bus.request.cbInvoke && FrameAsks(l.frame, q)
    ensures BusValid(l.bus) && !ResponseOf(l, q.fc).Pending?
  {
    FunctionAsked(l.frame, q);
    assert l.bus.tx.memory[..|l.frame|][1] == l.frame[1];
    hide CodeOf, HasError, Crc16.Accepted, FrameAsks;
  }

  lemma FunctionAsked(frame: seq<bv8>, q: Question)
    requires FrameAsks(frame, q)
    ensures |frame| >= 2 && frame[1] == CodeOf(q.fc)
  {
    hide CodeOf, Crc16.Crc, Crc16.LowByte, Crc16.HighByte;
  }

  // ----- Every run --------------------------------------------------------------------------------------

  // The Iskra driver's two state machines share the channel: after every run the bus waits exactly in
  // these states, and the fast reads only run while the full scan stands in state 0.
  lemma IskraWaits(s: Station, t: Tables)
    requires TablesOk(t) && Reached(s, t) && IsIskra(s.meter.meterType)
    ensures s.line.bus.request.state == Waiting <==>
            (s.meter.fast.active && s.meter.fast.state in {1, 3}) ||
            (!s.meter.fast.active && s.meter.state in {1, 4, 6})
    ensures s.meter.fast.active ==> s.meter.state == 0
  {
    hide StationInv, Reached, TablesOk;
    EveryRun(s, t);
    IskraWaitsInv(s, t);
  }

  lemma OthersWait(s: Station, t: Tables)
    requires TablesOk(t) && Reached(s, t)
    ensures IsEastron(s.meter.meterType) ==> (s.line.bus.request.state == Waiting <==> s.meter.state in {1, 3, 5, 7})
    ensures IsGeneric(s.meter.meterType) ==> (s.line.bus.request.state == Waiting <==> s.meter.state == 1)
    ensures IsEltako(s.meter.meterType) ==> (s.line.bus.request.state == Waiting <==> s.meter.state in {1, 2})
  {
    hide StationInv, Reached, TablesOk;
    EveryRun(s, t);
    OthersWaitInv(s, t);
  }

  // One request at a time: no tick of any driver writes into the transmit ring or restarts the timeout of
  // a request that still waits.
  lemma OneRequestAtATime(s: Station, t: Tables, o: Outside)
    requires TablesOk(t) && Reached(s, t) && s.line.bus.request.state == Waiting
    ensures StationInv(s, t) && KeepsRequest(s.line, Step(s, MainTick(o), t).line)
  {
    hide StationInv, Reached, TablesOk, Step, KeepsRequest;
    EveryRun(s, t);
    OneRequestAtATimeInv(s, t, o);
  }

  // A request is built only on an empty transmit ring at offset 0; while it waits, the ring holds exactly
  // that frame with a correct checksum, and what was clocked out so far is its beginning.
  lemma RequestIsOneFrame(s: Station, t: Tables)
    requires TablesOk(t) && Reached(s, t)
    ensures var b := s.line.bus;
            && (b.request.state == Ready ==> b.tx.start == 0 && b.tx.end == 0)
            && (b.request.state == Waiting ==>
                 && Crc16.Accepted(s.line.frame) && b.tx.end <= |b.tx.memory| && b.tx.memory[..b.tx.end] == s.line.frame
                 && s.line.sent <= s.line.frame)
  {
    hide Reached, TablesOk, DriverShape, Agrees, Crc16.Accepted;
    EveryRun(s, t);
  }

  // A response is handed over only if received bytes came from the addressed slave, for the asked
  // function and with a correct checksum, whatever was received afterwards.
  lemma OnlyValidReplies(s: Station, t: Tables)
    requires TablesOk(t) && Reached(s, t)
    requires s.line.bus.request.state == Waiting && s.line.bus.request.cbInvoke && !s.line.bus.request.timedOut
    ensures |s.line.frame| >= 2 && |s.line.bus.rx.memory| >= s.line.bus.rx.end
    ensures exists n: nat :: n <= s.line.bus.rx.end && ValidReply(s.line.bus.rx.memory[..n], s.line.frame)
  {
    hide Reached, TablesOk, DriverShape, Agrees, Crc16.Accepted, ValidReply;
    EveryRun(s, t);
    AnsweredIsValid(s.line);
  }

  // Each request reports at most one failure, and the report stays until a driver clears the request.
  lemma TimedOutIsSticky(s: Station, e: Event, t: Tables)
    requires TablesOk(t) && Reached(s, t)
    ensures StationInv(s, t) && s.line.raised <= 1 && (s.line.raised == 1 <==> s.line.bus.request.timedOut)
    ensures var after := Step(s, e, t).line;
            s.line.bus.request.timedOut ==>
              after.bus.request.timedOut || (e.MainTick? && after.bus.request.state == Ready)
  {
    hide Reached, TablesOk, DriverShape, Agrees, Step, Shape, ReadyIsClean, FrameHeld, SampleHeld, ReplyBacked, Counted;
    EveryRun(s, t);
    if s.line.bus.request.timedOut {
      TimedOutIsStickyInv(s, e, t);
    }
  }

  // A tick of the Iskra fast path changes registers only while such a response is held that is no exception either.
  lemma FastRegistersBacked(s: Station, t: Tables, o: Outside)
    requires TablesOk(t) && Reached(s, t) && IsIskra(s.meter.meterType) && FastTurn(s.line, s.meter)
    ensures BusValid(s.line.bus)
    ensures var l := s.line;
            IskraFastTick(l, s.meter, o).meter.readings.registers != s.meter.readings.registers ==>
              && !HasError(l.bus)
              && |l.frame| >= 2 && ValidReply(l.validated, l.frame)
              && |l.validated| <= l.bus.rx.end && l.bus.rx.memory[..|l.validated|] == l.validated
  {
    hide StationInv, Reached, TablesOk, BusValid, IskraFastTick, HasError, ValidReply, FastTurn;
    EveryRun(s, t);
    FastRegistersBackedInv(s, t, o);
  }

  // No driver and no detection waits for an answer it has already got: the next tick that runs finishes the
  // request. Eltako first handles its block value by value, which takes at most one tick for each entry of its
  // table and two more.
  lemma ResponseIsTaken(s: Station, t: Tables, o: Outside)
    requires TablesOk(t) && Reached(s, t) && s.line.bus.request.state == Waiting && s.line.bus.request.cbInvoke
    ensures BusValid(s.line.bus) && MeterShape(s.meter, t)
    ensures var after, table := Ticked(s.line, s.meter, t, o), TableOf(t, s.meter.meterType);
            after.line.bus.request.state == Ready ||
            (IsEltako(s.meter.meterType) && ComesCloser(s, after, table) &&
             TicksLeft(s.meter, table) <= Count(table) + 2)
  {
    hide StationInv, Reached, TablesOk, BusValid, MeterShape, Ticked, ComesCloser, TableOf;
    EveryRun(s, t);
    ResponseIsTakenInv(s, t, o);
  }

  // ----- What the checks do not cover ---------------------------------------------------------------------

  // The length of a response is not compared with the request: slave address, function code and checksum
  // alone are a valid reply to any request, although they carry no data.
  lemma EmptyReplyPasses(frame: seq<bv8>)
    requires |frame| >= 2
    ensures ValidReply(Crc16.WithCrc([frame[0], frame[1]]), frame)
  {
    Crc16.OwnFrameAccepted([frame[0], frame[1]]);
    hide Crc16.Accepted, Crc16.Crc, Crc16.LowByte, Crc16.HighByte, IsExceptionOf;
  }

  // So a late reply to another request can be told apart exactly by slave address and function code.
  lemma {:induction false} ToldApart(f: seq<bv8>, g: seq<bv8>)
    requires |f| >= 2 && |g| >= 2
    ensures (forall reply: seq<bv8> :: ValidReply(reply, f) <==> ValidReply(reply, g)) <==> f[0] == g[0] && f[1] == g[1]
  {
    hide Crc16.WithCrc, Crc16.Accepted;
    if forall reply: seq<bv8> :: ValidReply(reply, f) <==> ValidReply(reply, g) {
      EmptyReplyPasses(f);
      EmptyReplyPasses(g);
      assert ValidReply(Crc16.WithCrc([f[0], f[1]]), g) && ValidReply(Crc16.WithCrc([g[0], g[1]]), f);
      EmptyReplyStarts(f);
      EmptyReplyStarts(g);
    }
  }

  lemma EmptyReplyStarts(frame: seq<bv8>)
    requires |frame| >= 2
    ensures var reply := Crc16.WithCrc([frame[0], frame[1]]);
            |reply| >= 2 && reply[0] == frame[0] && reply[1] == frame[1]
  {}

  lemma FrameStarts(q: Question)
    ensures var frame := Crc16.WithCrc(PayloadOf(q));
            |frame| >= 2 && frame[0] == AddressOf(q.slave) && frame[1] == CodeOf(q.fc)
  {
    hide Crc16.Crc, Crc16.LowByte, Crc16.HighByte, CodeOf, AddressOf;
  }

  // Whatever registers two questions are about, every reply to one passes for the other exactly when they
  // go to the same slave with the same function code.
  lemma RepliesInterchange(q: Question, r: Question)
    ensures var f, g := Crc16.WithCrc(PayloadOf(q)), Crc16.WithCrc(PayloadOf(r));
            |f| >= 2 && |g| >= 2 &&
            ((forall reply: seq<bv8> :: ValidReply(reply, f) <==> ValidReply(reply, g)) <==>
             q.slave == r.slave && q.fc == r.fc)
  {
    hide Crc16.WithCrc, PayloadOf, ValidReply, AddressOf, CodeOf;
    FrameStarts(q);
    FrameStarts(r);
    SameCodes(q, r);
    ToldApart(Crc16.WithCrc(PayloadOf(q)), Crc16.WithCrc(PayloadOf(r)));
  }

  lemma SameCodes(q: Question, r: Question)
    ensures AddressOf(q.slave) == AddressOf(r.slave) <==> q.slave == r.slave
    ensures CodeOf(q.fc) == CodeOf(r.fc) <==> q.fc == r.fc
  {}
}
