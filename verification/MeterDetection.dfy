/** Which meter is found: by the bytes of the reply to the detection's question, and spoken to at the address that
    answered. */
module MeterDetection {
  import opened Wrappers
  import opened Clock
  import opened Modbus
  import opened ModbusLine
  import opened MeterScan
  import opened MeterDrivers
  import opened Requests
  import opened MeterRuns
  import opened MeterAnswers
  import Crc16
  import R = Ringbuffers

  // The codes of the meters as they come over the wire: one register, high byte first.
  const GENERIC_CODES: map<seq<bv8>, MeterType> := map[[0x00, 0x06] := Dem4A]

  const EASTRON_CODES: map<seq<bv8>, MeterType> :=
    map[[0x00, 0x84] := Unsupported, [0x00, 0x89] := Sdm72V2, [0x00, 0x00] := Sdm630, [0x00, 0x70] := Sdm630,
        [0x00, 0x79] := Sdm630MctV2]

  // The Eltako manufacturer and the two meter codes whose counting direction is configured, two registers each.
  const ELTAKO: seq<bv8> := [0x00, 0x00, 0x00, 0x0D]
  const DIRECTED: set<seq<bv8>> := {[0x00, 0x00, 0x00, 0x02], [0x00, 0x00, 0x00, 0x03]}

  function Coded(codes: map<seq<bv8>, MeterType>, code: seq<bv8>): MeterType {
    if code in codes then codes[code] else Unknown
  }

  // A model number in ASCII, of which the first six characters count.
  function Named(model: seq<bv8>): MeterType
    requires |model| >= 6
  {
    if model[..4] != [0x57, 0x4D, 0x33, 0x4D] then Unknown
    else if model[4..6] == [0x34, 0x43] then Wm3M4C
    else if model[4] == 0x34 then Wm3M4
    else Unknown
  }

  // The data bytes of the answer that the receive ring holds.
  predicate Holds(l: Line, data: seq<bv8>) {
    BusValid(l.bus) && 3 + |data| <= |l.bus.rx.memory| && l.bus.rx.memory[3..3 + |data|] == data
  }

  lemma HoldsBytes(l: Line, data: seq<bv8>)
    requires Holds(l, data)
    ensures 3 + |data| <= |l.bus.rx.memory| && forall i :: 0 <= i < |data| ==> l.bus.rx.memory[3 + i] == data[i]
  {
    hide BusValid;
    forall i | 0 <= i < |data| ensures l.bus.rx.memory[3 + i] == data[i] {
      assert l.bus.rx.memory[3..3 + |data|][i] == data[i];
    }
  }

  lemma AnswerHolds(l: Line, q: Question, size: nat)
    requires Answers(l, q) && |l.validated| >= 5 + size
    ensures Holds(l, l.validated[3..3 + size])
  {
    hide BusValid, ValidReply, HasError, Crc16.WithCrc, PayloadOf;
    RingFits(l.bus);
    assert l.bus.rx.memory[..|l.validated|][3..3 + size] == l.bus.rx.memory[3..3 + size];
  }

  // What the detection makes of the meter when it has found this type, or nothing.
  predicate Concludes(l: Line, m: Meter, after: Station, found: MeterType) {
    if found.Unknown? then
      after.meter.meterType.Unknown? && after.meter.detection.find == m.detection.find + 1 &&
      after.meter.slave == m.slave
    else
      after.meter.meterType == found && after.meter.detection.find == 0 && after.meter.guard.timeout == Now(l)
  }

  lemma GenericDetects(l: Line, m: Meter, code: seq<bv8>)
    requires Holds(l, code) && |code| == 2 && m.detection.find == 0 && m.detection.generic == 1
    requires m.meterType.Unknown? && ResponseOf(l, ReadHolding).Good?
    ensures Concludes(l, m, FindMeterType(l, m), Coded(GENERIC_CODES, code))
  {
    HoldsBytes(l, code);
    assert code == [code[0], code[1]];
    hide BusValid, Done, OnResetCounters, HasError, ResponseOf;
  }

  lemma EastronDetects(l: Line, m: Meter, code: seq<bv8>)
    requires Holds(l, code) && |code| == 2 && m.detection.find == 1 && m.detection.eastron == 1
    requires m.meterType.Unknown? && ResponseOf(l, ReadHolding).Good?
    ensures Concludes(l, m, FindMeterType(l, m), Coded(EASTRON_CODES, code))
  {
    HoldsBytes(l, code);
    assert code == [code[0], code[1]];
    hide BusValid, Done, OnResetCounters, HasError, ResponseOf;
  }

  lemma IskraDetects(l: Line, m: Meter, model: seq<bv8>)
    requires Holds(l, model) && |model| == 8 && m.detection.find == 3 && m.detection.iskra == 1
    requires m.meterType.Unknown? && ResponseOf(l, ReadInput).Good?
    ensures Concludes(l, m, FindMeterType(l, m), Named(model))
  {
    HoldsBytes(l, model);
    assert model[..4] == [model[0], model[1], model[2], model[3]] && model[4..6] == [model[4], model[5]];
    hide BusValid, Done, OnResetCounters, HasError, ResponseOf;
  }

  // An Eltako meter is asked for its code if it is one; every code but the two makes it a DSZ15DZMOD.
  lemma EltakoDetects(l: Line, m: Meter, code: seq<bv8>)
    requires Holds(l, code) && |code| == 4 && m.detection.find == 2 && m.detection.eltako in {1, 3}
    requires m.meterType.Unknown? && ResponseOf(l, ReadHolding).Good?
    ensures var after := FindMeterType(l, m);
            if m.detection.eltako == 1 then
              if code == ELTAKO then
                after.meter.meterType.Unknown? && after.meter.detection == m.detection.(eltako := 2)
              else Concludes(l, m, after, Unknown)
            else if code in DIRECTED then
              after.meter.meterType.Unknown? && after.meter.detection == m.detection.(eltako := 4)
            else Concludes(l, m, after, Dsz15Dzmod)
  {
    HoldsBytes(l, code);
    assert code == [code[0], code[1], code[2], code[3]];
    hide BusValid, Done, OnResetCounters, HasError, ResponseOf;
  }

  // Without a good answer nothing is found, except that a meter of the Eltako make counts as a DSZ15DZMOD even if
  // its code could not be read.
  lemma FailureDetects(l: Line, m: Meter)
    requires BusValid(l.bus) && DetectionAsks(m.detection).Some? && m.detection.eltako !in {5, 7}
    requires m.meterType.Unknown? && ResponseOf(l, DetectionAsks(m.detection).value.fc).Failed?
    ensures Concludes(l, m, FindMeterType(l, m),
                      if m.detection.find == 2 && m.detection.eltako == 3 then Dsz15Dzmod else Unknown)
  {
    hide BusValid, Done, OnResetCounters, HasError, ResponseOf, IskraModel, ResponseWord;
  }

  // The two direction writes of an Eltako meter end with a DSZ16DZE, however they are answered.
  lemma WritesDetect(l: Line, m: Meter)
    requires BusValid(l.bus) && m.detection.find == 2 && m.detection.eltako in {5, 7}
    requires m.meterType.Unknown? && !ResponseOf(l, WriteSingle).Pending?
    ensures var after := FindMeterType(l, m);
            if m.detection.eltako == 5 then
              after.meter.meterType.Unknown? && after.meter.detection == m.detection.(eltako := 6)
            else Concludes(l, m, after, Dsz16Dze)
  {
    hide BusValid, Done, OnResetCounters, HasError, ResponseOf;
  }

  // From then on the driver speaks to the address that has answered.
  lemma FoundIsAsked(l: Line, m: Meter)
    requires BusValid(l.bus) && m.meterType.Unknown? && DetectionAsks(m.detection).Some?
    ensures var after := FindMeterType(l, m).meter;
            after.meterType.Unknown? || after.meterType.Unsupported? ||
            after.slave == DetectionAsks(m.detection).value.slave
  {
    hide BusValid, Done, OnResetCounters, HasError, ResponseOf, ResponseWord, Data;
  }

  // How many data bytes the answer to a detection step must have.
  function CodeLength(d: Detection): nat { if d.find == 2 then 4 else if d.find == 3 then 8 else 2 }

  // What such an answer stands for, as far as it decides.
  function Meant(d: Detection, data: seq<bv8>): Option<MeterType>
    requires |data| == CodeLength(d)
  {
    if d.find == 0 then Some(Coded(GENERIC_CODES, data))
    else if d.find == 1 then Some(Coded(EASTRON_CODES, data))
    else if d.find == 2 && d.eltako == 1 then (if data == ELTAKO then None else Some(Unknown))
    else if d.find == 2 then (if data in DIRECTED then None else Some(Dsz15Dzmod))
    else if d.find == 3 then Some(Named(data))
    else None
  }

  // What is made of it.
  predicate IsMeant(l: Line, m: Meter, after: Station, data: seq<bv8>)
    requires |data| == CodeLength(m.detection)
  {
    var meant := Meant(m.detection, data);
    if meant.Some? then Concludes(l, m, after, meant.value)
    else after.meter.meterType.Unknown? && after.meter.detection == m.detection.(eltako := m.detection.eltako + 1)
  }

  lemma FindIsMeant(l: Line, m: Meter, q: Question, data: seq<bv8>)
    requires BusValid(l.bus) && m.meterType.Unknown? && DetectionShape(m.detection) && m.detection.eltako !in {5, 7}
    requires DetectionAsks(m.detection) == Some(q) && ResponseOf(l, q.fc).Good?
    requires |data| == CodeLength(m.detection) && Holds(l, data)
    ensures IsMeant(l, m, FindMeterType(l, m), data)
  {
    hide BusValid, FindMeterType, Holds, ResponseOf, Coded, Named, Concludes;
    if m.detection.find == 0 {
      GenericDetects(l, m, data);
    } else if m.detection.find == 1 {
      EastronDetects(l, m, data);
    } else if m.detection.find == 2 {
      EltakoDetects(l, m, data);
    } else {
      IskraDetects(l, m, data);
    }
  }

  // On every run: the good answer to a question of the detection decides by its data bytes what is found, and what is
  // found is spoken to at the address that was asked.
  lemma MeterIsWhatAnswered(s: Station, t: Tables, o: Outside, q: Question)
    requires TablesOk(t) && StationInv(s, t) && s.meter.meterType.Unknown? && !s.meter.guard.stuck
    requires Awake(s.meter.guard, Now(s.line)).0 && s.meter.detection.eltako !in {5, 7}
    requires DetectionAsks(s.meter.detection) == Some(q) && BusValid(s.line.bus) && ResponseOf(s.line, q.fc).Good?
    requires |s.line.validated| >= 5 + CodeLength(s.meter.detection)
    ensures Answers(s.line, q)
    ensures var after := Step(s, MainTick(o), t);
            && IsMeant(s.line, s.meter, after, s.line.validated[3..3 + CodeLength(s.meter.detection)])
            && (!after.meter.meterType.Unknown? && !after.meter.meterType.Unsupported? ==> after.meter.slave == q.slave)
  {
    hide TablesOk, Inv, BusValid, FindMeterType, DriverTick, MeterShape, Holds, ResponseOf, Answers, DetectionAsks,
         IsMeant, Untouched, FrameAsks, Watched, Awake;
    var l, m := s.line, s.meter;
    ShapeForTick(m, t);
    var n := m.(guard := Awake(m.guard, Now(l)).1);
    GoodAnswers(s, t, q);
    var size := CodeLength(m.detection);
    AnswerHolds(l, q, size);
    var data := l.validated[3..3 + size];
    FoundIsAsked(l, n);
    FindIsMeant(l, n, q, data);
    MeantWithGuard(l, m, n.guard, FindMeterType(l, n), data);
  }

  lemma MeantWithGuard(l: Line, m: Meter, g: Guard, after: Station, data: seq<bv8>)
    requires |data| == CodeLength(m.detection)
    ensures IsMeant(l, m.(guard := g), after, data) == IsMeant(l, m, after, data)
  {}
}
