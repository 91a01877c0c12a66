/** The energy-meter drivers that share one Modbus channel: detection, Eastron, generic, Iskra with its
    interleaved fast reads, and Eltako. One tick of meter_tick is one function on the bus line and the
    driver state. */
module MeterDrivers {
  import opened Wrappers
  import opened Clock
  import opened Modbus
  import opened ModbusLine
  import opened MeterScan

  datatype MeterType =
    | Unknown | Unsupported | Sdm630 | Sdm72V2 | Sdm630MctV2 | Dsz15Dzmod | Dem4A | Dmed341Mid7Er | Dsz16Dze
    | Wm3M4C | Wm3M4

  // What a register holds, as the expression it was computed by: nothing yet, the words of a response with
  // the type they are converted by, what a reset noted of a register, a thousandth of a value, a difference,
  // or what an Eltako meter's values are completed with in a numbered step.
  datatype Value =
    | NaN
    | Zero
    | Converted(data: Word, dataType: DataType)
    | Noted(target: Target)
    | Thousandth(of: Value)
    | Minus(left: Value, right: Value)
    | Derived(step: nat)

  type Registers = map<Target, Value>

  // Registers start as NaN, temporaries as zero.
  function ValueAt(registers: Registers, target: Target): Value {
    if target in registers then registers[target] else if target.Temporary? then Zero else NaN
  }

  datatype Phases = Phases(l1: bool, l2: bool, l3: bool)

  // The static states of the detection functions.
  datatype Detection = Detection(find: nat, generic: nat, eastron: nat, eltako: nat, iskra: nat)

  datatype Fast = Fast(state: nat, active: bool, start: nat)

  datatype Eltako = Eltako(since: nat, data: seq<Word>, isNew: bool, index: nat)

  // Positions and timing of the register scans.
  datatype Scan = Scan(
    fullPosition: nat, fastPosition: nat, fastTime: nat, readOnce: bool, newFastValue: bool,
    readFast: bool)                  // one static in the Eastron and one in the generic driver

  // What holds meter_tick back.
  datatype Guard = Guard(firstTick: nat, errorWait: nat, timeout: nat, lastState: nat, stuck: bool)

  datatype Readings = Readings(
    registers: Registers, phases: Phases, available: bool, systemType: Word, newSystemType: bool,
    measurementStatus: Word, signatureStatus: Word)

  // The slave addresses in use, and the function codes of the requests.
  datatype Slave = NoSlave | Slave01 | Slave21

  datatype FunctionCode = ReadHolding | ReadInput | WriteSingle | WriteMultiple

  function AddressOf(s: Slave): bv8 {
    match s
    case NoSlave => 0
    case Slave01 => 0x01
    case Slave21 => 0x21
  }

  function CodeOf(fc: FunctionCode): bv8 {
    match fc
    case ReadHolding => READ_HOLDING
    case ReadInput => READ_INPUT
    case WriteSingle => WRITE_SINGLE
    case WriteMultiple => WRITE_MULTIPLE
  }

  datatype Meter = Meter(
    meterType: MeterType, slave: Slave, state: nat, detection: Detection, fast: Fast, eltako: Eltako,
    scan: Scan, guard: Guard, readings: Readings)

  // The register tables of the build.
  datatype Tables = Tables(
    sdm72v2: Table, sdm630: Table, dsz15dzmod: Table, dsz16dze: Table, dem4a: Table, dmed341mid7er: Table,
    wm3m4c: Table)

  // meter_set_meter_type; an unknown or unsupported meter has no table.
  function TableOf(t: Tables, meterType: MeterType): Table {
    match meterType
    case Sdm72V2 => t.sdm72v2
    case Sdm630 => t.sdm630
    case Sdm630MctV2 => t.sdm630
    case Dsz15Dzmod => t.dsz15dzmod
    case Dem4A => t.dem4a
    case Dmed341Mid7Er => t.dmed341mid7er
    case Dsz16Dze => t.dsz16dze
    case Wm3M4C => t.wm3m4c
    case Wm3M4 => t.wm3m4c
    case _ => []
  }

  predicate IsEastron(m: MeterType) { m.Sdm72V2? || m.Sdm630? || m.Sdm630MctV2? }

  predicate IsGeneric(m: MeterType) { m.Dem4A? || m.Dmed341Mid7Er? }

  predicate IsIskra(m: MeterType) { m.Wm3M4C? || m.Wm3M4? }

  predicate IsEltako(m: MeterType) { m.Dsz15Dzmod? || m.Dsz16Dze? }

  const ELTAKO_REGISTERS := 76

  // One read fetches all Eltako registers, and register number 0 stands only at the stop marker.
  predicate EltakoTable(t: Table) {
    Terminated(t) && t[Count(t)].register == 0 &&
    forall i :: 0 <= i < Count(t) ==> 0 < t[i].register <= 2 * ELTAKO_REGISTERS
  }

  ghost predicate TablesOk(t: Tables) {
    HasBothKinds(t.sdm72v2) && HasBothKinds(t.sdm630) && HasBothKinds(t.dem4a) && HasBothKinds(t.dmed341mid7er) &&
    Terminated(t.wm3m4c) && EltakoTable(t.dsz15dzmod) && EltakoTable(t.dsz16dze)
  }

  // What a tick finds outside: which phase voltages exceed 180 volts, the contents of an unset local.
  datatype Outside = Outside(phases: Phases, unset: Word)

  datatype Station = Station(line: Line, meter: Meter)

  // ----- Requests and responses ---------------------------------------------------------------------

  function Ask(l: Line, fc: FunctionCode, slave: Slave, register: nat, count: nat): (after: Line)
    requires BusValid(l.bus)
    ensures after.clock == l.clock
  {
    OnSend(l, ReadPayload(CodeOf(fc), AddressOf(slave), register, count), 10)
  }

  function AskFor(l: Line, slave: Slave, d: Definition): (after: Line)
    requires BusValid(l.bus)
    ensures after.clock == l.clock
  {
    Ask(l, ReadInput, slave, d.register, RegisterSize(d))
  }

  function AskWrite(l: Line, fc: FunctionCode, slave: Slave, register: nat, value: Word): (after: Line)
    requires BusValid(l.bus)
    ensures after.clock == l.clock
  {
    OnSend(l, WritePayload(CodeOf(fc), AddressOf(slave), register, value), 13)
  }

  datatype Response = Pending | Failed | Good

  function ResponseOf(l: Line, fc: FunctionCode): Response
    requires BusValid(l.bus)
  {
    if !ResponseReady(l.bus, CodeOf(fc)) then Pending else if HasError(l.bus) then Failed else Good
  }

  // meter_has_errors starts the error wait only after a timeout.
  function AfterResponse(m: Meter, l: Line, read: bool): Meter
    requires BusValid(l.bus)
  {
    m.(guard := if l.bus.request.timedOut then m.guard.(errorWait := Now(l)) else m.guard,
       readings := m.readings.(available := m.readings.available || (read && !HasError(l.bus))))
  }

  // The request is done with: exceptions are counted and the bus is cleared.
  function Done(l: Line): (after: Line)
    requires BusValid(l.bus)
    ensures after.clock == l.clock
  {
    OnClear(OnNoteException(l))
  }

  // What a response leaves in a variable of this many registers.
  function Data(l: Line, response: Response, size: nat, before: Word): Word
    requires BusValid(l.bus)
  {
    if !response.Good? then before
    else if size == 1 then Word(before.b3, before.b2, ResponseWord(l.bus, 0).b3, ResponseWord(l.bus, 0).b2)
    else ResponseWord(l.bus, 0)
  }

  // meter_handle_new_data
  function NewData(m: Meter, data: Word, d: Definition): Meter {
    m.(readings := m.readings.(registers := m.readings.registers[d.target := Converted(data, d.dataType)]))
  }

  // ----- Values that are computed when all registers have been read ------------------------------------

  // Register-set entries by their place, and the two energy counters of the Iskra driver.
  const IMPORT: Target := InSet(34)
  const EXPORT: Target := InSet(35)
  const SUM: Target := InSet(57)
  const IMPORT_RESETTABLE: Target := InSet(78)
  const EXPORT_RESETTABLE: Target := InSet(79)
  const SUM_RESETTABLE: Target := InSet(77)
  const IMPORT_COUNTER: Target := Temporary(0)
  const EXPORT_COUNTER: Target := Temporary(1)

  // The registers of meter_handle_register_set_read_done: energy since the last reset.
  function Completed(registers: Registers): Registers {
    registers[IMPORT_RESETTABLE := Minus(ValueAt(registers, IMPORT), Noted(IMPORT))]
             [EXPORT_RESETTABLE := Minus(ValueAt(registers, EXPORT), Noted(EXPORT))]
             [SUM_RESETTABLE := Minus(ValueAt(registers, SUM), Noted(SUM))]
  }

  // And of meter_iskra_handle_register_set_read_done, which first takes the energy from its counters.
  function IskraCompleted(registers: Registers): Registers {
    var imported, exported :=
      Thousandth(ValueAt(registers, IMPORT_COUNTER)), Thousandth(ValueAt(registers, EXPORT_COUNTER));
    Completed(registers[IMPORT := imported][EXPORT := exported][SUM := Minus(imported, exported)])
  }

  function WithRegisters(m: Meter, registers: Registers): Meter {
    m.(readings := m.readings.(registers := registers))
  }

  // ----- Detection ----------------------------------------------------------------------------------

  datatype Found = Detecting | Is(meterType: MeterType)

  // The response a detection step has taken, if any.
  datatype Taken = NoResponse | ReadResponse | WriteResponse

  datatype Finding = Finding(line: Line, detection: Detection, found: Found, taken: Taken)

  const NO_WORD: Word := Word(0xFF, 0xFF, 0xFF, 0xFF)

  // meter_generic_is_connected
  function GenericFind(l: Line, d: Detection): (after: Finding)
    requires BusValid(l.bus)
    ensures after.line.clock == l.clock
  {
    if d.generic == 0 then
      Finding(Ask(l, ReadHolding, Slave01, 0x100D, 1), d.(generic := 1), Detecting, NoResponse)
    else if d.generic == 1 then
      var r := ResponseOf(l, ReadHolding);
      if r.Pending? then Finding(l, d, Detecting, NoResponse) else
      var code := Data(l, r, 1, NO_WORD);
      Finding(Done(l), d.(generic := 0), Is(if code.b1 == 0 && code.b0 == 6 then Dem4A else Unknown), ReadResponse)
    else
      Finding(l, d.(generic := 0), Is(Unknown), NoResponse)
  }

  // The meter code of meter_eastron_is_connected, in a build without a hardware version.
  function EastronCode(code: Word): MeterType {
    if code.b1 != 0 then Unknown
    else if code.b0 == 0x84 then Unsupported
    else if code.b0 == 0x89 then Sdm72V2
    else if code.b0 == 0x00 || code.b0 == 0x70 then Sdm630
    else if code.b0 == 0x79 then Sdm630MctV2
    else Unknown
  }

  // meter_eastron_is_connected
  function EastronFind(l: Line, d: Detection): (after: Finding)
    requires BusValid(l.bus)
    ensures after.line.clock == l.clock
  {
    if d.eastron == 0 then
      Finding(Ask(l, ReadHolding, Slave01, 64515, 1), d.(eastron := 1), Detecting, NoResponse)
    else if d.eastron == 1 then
      var r := ResponseOf(l, ReadHolding);
      if r.Pending? then Finding(l, d, Detecting, NoResponse) else
      Finding(Done(l), d.(eastron := 0), Is(EastronCode(Data(l, r, 1, NO_WORD))), ReadResponse)
    else
      Finding(l, d.(eastron := 0), Is(Unknown), NoResponse)
  }

  // meter_eltako_is_connected
  function EltakoFind(l: Line, d: Detection): (after: Finding)
    requires BusValid(l.bus)
    ensures after.line.clock == l.clock
  {
    if d.eltako == 0 then
      Finding(Ask(l, ReadHolding, Slave01, 64515, 2), d.(eltako := 1), Detecting, NoResponse)
    else if d.eltako == 1 then
      var r := ResponseOf(l, ReadHolding);
      if r.Pending? then Finding(l, d, Detecting, NoResponse) else
      if Data(l, r, 2, NO_WORD) == Word(0, 0, 0, 0x0D) then Finding(Done(l), d.(eltako := 2), Detecting, ReadResponse)
      else Finding(Done(l), d.(eltako := 0), Is(Unknown), ReadResponse)
    else if d.eltako == 2 then
      Finding(Ask(l, ReadHolding, Slave01, 64525, 2), d.(eltako := 3), Detecting, NoResponse)
    else if d.eltako == 3 then
      var r := ResponseOf(l, ReadHolding);
      if r.Pending? then Finding(l, d, Detecting, NoResponse) else
      var code := Data(l, r, 2, NO_WORD);
      // Only these two are configured further; the detection state stays put for any other meter code.
      if code == Word(0, 0, 0, 2) || code == Word(0, 0, 0, 3) then
        Finding(Done(l), d.(eltako := 4), Detecting, ReadResponse)
      else
        Finding(Done(l), d, Is(Dsz15Dzmod), ReadResponse)
    else EltakoDirection(l, d)
  }

  // Its states 4 to 7 set the counting direction with two single-register writes.
  function EltakoDirection(l: Line, d: Detection): (after: Finding)
    requires BusValid(l.bus)
    ensures after.line.clock == l.clock
  {
    if d.eltako == 4 then
      Finding(AskWrite(OnClear(l), WriteSingle, Slave01, 63767, Word(0, 0, 0, 0)), d.(eltako := 5), Detecting,
              NoResponse)
    else if d.eltako == 5 then
      if ResponseOf(l, WriteSingle).Pending? then Finding(l, d, Detecting, NoResponse) else
      Finding(Done(l), d.(eltako := 6), Detecting, WriteResponse)
    else if d.eltako == 6 then
      Finding(AskWrite(OnClear(l), WriteSingle, Slave01, 63768, Word(0, 0, 0, 1)), d.(eltako := 7), Detecting,
              NoResponse)
    else if d.eltako == 7 then
      if ResponseOf(l, WriteSingle).Pending? then Finding(l, d, Detecting, NoResponse) else
      Finding(Done(l), d.(eltako := 0), Is(Dsz16Dze), WriteResponse)
    else
      Finding(l, d.(eltako := 0), Is(Unknown), NoResponse)
  }

  // The model number starts with WM3M, then 4C or 4.
  function IskraModel(first: Word, second: Word): MeterType {
    if first != Word(0x57, 0x4D, 0x33, 0x4D) then Unknown
    else if second.b3 == 0x34 && second.b2 == 0x43 then Wm3M4C
    else if second.b3 == 0x34 then Wm3M4
    else Unknown
  }

  // meter_iskra_is_connected
  function IskraFind(l: Line, d: Detection): (after: Finding)
    requires BusValid(l.bus)
    ensures after.line.clock == l.clock
  {
    if d.iskra == 0 then
      Finding(Ask(l, ReadInput, Slave21, 2, 4), d.(iskra := 1), Detecting, NoResponse)
    else if d.iskra == 1 then
      var r := ResponseOf(l, ReadInput);
      if r.Pending? then Finding(l, d, Detecting, NoResponse) else
      var model := if r.Good? then IskraModel(ResponseWord(l.bus, 0), ResponseWord(l.bus, 1)) else Unknown;
      Finding(Done(l), d.(iskra := 0), Is(model), ReadResponse)
    else
      Finding(l, d.(iskra := 0), Is(Unknown), NoResponse)
  }

  function FindStep(l: Line, d: Detection): (after: Finding)
    requires BusValid(l.bus)
    ensures after.line.clock == l.clock
  {
    if d.find == 0 then GenericFind(l, d)
    else if d.find == 1 then EastronFind(l, d)
    else if d.find == 2 then EltakoFind(l, d)
    else IskraFind(l, d)
  }

  // meter_set_meter_type
  function SetMeterType(m: Meter, meterType: MeterType, now: nat): Meter {
    m.(meterType := meterType, guard := m.guard.(timeout := now),
       slave := if IsIskra(meterType) then Slave21 else if meterType.Unsupported? then NoSlave else Slave01)
  }

  // The meter after a detection step has taken its response.
  function AfterFinding(m: Meter, l: Line, f: Finding): Meter
    requires BusValid(l.bus)
  {
    (if f.taken.NoResponse? then m else AfterResponse(m, l, f.taken.ReadResponse?)).(detection := f.detection)
  }

  // meter_find_meter_type
  function FindMeterType(l: Line, m: Meter): (after: Station)
    requires BusValid(l.bus)
    ensures after.line.clock == l.clock
  {
    if m.detection.find > 3 then Station(l, m.(detection := m.detection.(find := 0))) else
    var f := FindStep(l, m.detection);
    var line := OnResetCounters(f.line);
    var n := AfterFinding(m, l, f);
    if f.found.Detecting? then Station(line, n)
    else if !f.found.meterType.Unknown? then
      Station(line, SetMeterType(n, f.found.meterType, Now(l)).(detection := f.detection.(find := 0)))
    else
      Station(line, n.(detection := f.detection.(find := f.detection.find + 1)))
  }

  // ----- Eastron and generic: fast and full scan ------------------------------------------------------

  predicate Positioned(m: Meter, t: Table) {
    Terminated(t) && m.scan.fullPosition < Count(t) && m.scan.fastPosition < Count(t)
  }

  function Position(c: Scan): nat { if c.readFast then c.fastPosition else c.fullPosition }

  // State 0 of both drivers: a fast scan starts every 500 ms and then goes on to its end.
  function RequestScan(l: Line, m: Meter, t: Table): (after: Station)
    requires BusValid(l.bus) && Positioned(m, t)
    ensures after.line.clock == l.clock
  {
    var c := m.scan.(readFast := Elapsed(Now(l), m.scan.fastTime, 500) || m.scan.readFast);
    var d := t[Position(c)];
    Station(AskFor(l, m.slave, d), m.(state := 1, scan := c))
  }

  // A finished fast scan: schedule the next one.
  function FastScanDone(c: Scan, now: nat): Scan {
    var next := (c.fastTime + 500) % WRAP;
    c.(fastTime := if Elapsed(now, next, 500) then now else next, readFast := false, newFastValue := true)
  }

  // The positions after a response; a full scan that passes the end has read every value once.
  function ScanOn(c: Scan, t: Table, now: nat): Scan
    requires HasBothKinds(t) && c.fullPosition < Count(t) && c.fastPosition < Count(t)
  {
    var next := NextEntry(t, Position(c), c.readFast);
    if c.readFast then
      var p := c.(fastPosition := next.position);
      if next.wrapped then FastScanDone(p, now) else p
    else
      c.(fullPosition := next.position, readOnce := c.readOnce || next.wrapped)
  }

  // The full scan passes the end marker.
  predicate FullWraps(c: Scan, t: Table)
    requires HasBothKinds(t) && c.fullPosition < Count(t)
  {
    !c.readFast && NextEntry(t, c.fullPosition, false).wrapped
  }

  // State 1 of both drivers. The data of a failed request is whatever the local variable held.
  function ReadScan(l: Line, m: Meter, t: Table, o: Outside): (after: Station)
    requires BusValid(l.bus) && Positioned(m, t) && HasBothKinds(t)
    ensures after.line.clock == l.clock
  {
    var d, r := t[Position(m.scan)], ResponseOf(l, ReadInput);
    if r.Pending? then Station(l, m) else
    var n := NewData(AfterResponse(m, l, true), Data(l, r, RegisterSize(d), o.unset), d);
    var all := if FullWraps(m.scan, t) then WithRegisters(n, Completed(n.readings.registers)) else n;
    Station(Done(l), all.(state := if m.scan.readFast then 0 else 2, scan := ScanOn(m.scan, t, Now(l))))
  }

  predicate FullScanDone(c: Scan) { c.fullPosition == 0 && c.readOnce }

  function NotePhases(m: Meter, o: Outside): Meter { m.(readings := m.readings.(phases := o.phases)) }

  // meter_generic_tick
  function GenericTick(l: Line, m: Meter, t: Table, o: Outside): (after: Station)
    requires BusValid(l.bus) && Positioned(m, t) && HasBothKinds(t)
    ensures after.line.clock == l.clock
  {
    if m.state == 0 then RequestScan(l, m, t)
    else if m.state == 1 then ReadScan(l, m, t, o)
    else if m.state == 2 && FullScanDone(m.scan) then Station(l, NotePhases(m, o).(state := 0))
    else Station(l, m.(state := 0))
  }

  // Single-precision 3.0, 1.0 and 1000.0
  const THREE_PHASES: Word := Word(0x40, 0x40, 0, 0)
  const ONE_PHASE: Word := Word(0x3F, 0x80, 0, 0)
  const PASSWORD: Word := Word(0x44, 0x7A, 0, 0)

  predicate OnlyFirst(p: Phases) { p.l1 && !p.l2 && !p.l3 }

  predicate AllPhases(p: Phases) { p.l1 && p.l2 && p.l3 }

  // meter_eastron_handle_new_system_type: the configured system type does not fit the connected phases.
  predicate Misfit(systemType: Word, p: Phases) {
    if systemType == THREE_PHASES then OnlyFirst(p)
    else if systemType == ONE_PHASE then AllPhases(p)
    else true
  }

  function NoteSystemType(m: Meter, systemType: Word, o: Outside): Meter {
    m.(readings := m.readings.(systemType := systemType, phases := o.phases,
                               newSystemType := m.readings.newSystemType || Misfit(systemType, o.phases)))
  }

  // meter_eastron_tick
  function EastronTick(l: Line, m: Meter, t: Table, o: Outside): (after: Station)
    requires BusValid(l.bus) && Positioned(m, t) && HasBothKinds(t)
    ensures after.line.clock == l.clock
  {
    if m.state == 0 then RequestScan(l, m, t)
    else if m.state == 1 then ReadScan(l, m, t, o)
    else if m.state <= 3 then EastronReadType(l, m, o)
    else EastronWriteType(l, m)
  }

  // Its states 2 and 3: read the system type once every full scan.
  function EastronReadType(l: Line, m: Meter, o: Outside): (after: Station)
    requires BusValid(l.bus)
    ensures after.line.clock == l.clock
  {
    if m.state == 2 then
      if !FullScanDone(m.scan) then Station(l, m.(state := 0))
      else Station(Ask(l, ReadHolding, m.slave, 11, 2), m.(state := 3))
    else
      var r := ResponseOf(l, ReadHolding);
      if r.Pending? then Station(l, m) else
      Station(Done(l), NoteSystemType(AfterResponse(m, l, true), Data(l, r, 2, m.readings.systemType), o).(state := 4))
  }

  // Its states 4 to 7: rewrite a system type that does not fit, after the password.
  function EastronWriteType(l: Line, m: Meter): (after: Station)
    requires BusValid(l.bus)
    ensures after.line.clock == l.clock
  {
    var p := m.readings.phases;
    if m.state == 4 && m.readings.newSystemType then
      Station(AskWrite(OnClear(l), WriteMultiple, m.slave, if m.meterType.Sdm72V2? then 15 else 25, PASSWORD),
              m.(state := 5, readings := m.readings.(newSystemType := false)))
    else if m.state == 6 && (OnlyFirst(p) || AllPhases(p)) then
      Station(AskWrite(OnClear(l), WriteMultiple, m.slave, 11, if OnlyFirst(p) then ONE_PHASE else THREE_PHASES),
              m.(state := 7))
    else if m.state == 5 || m.state == 7 then
      if ResponseOf(l, WriteMultiple).Pending? then Station(l, m) else
      Station(Done(l), AfterResponse(m, l, false).(state := m.state + 1))
    else Station(l, m.(state := 0))
  }

  // ----- Iskra: full scan with interleaved fast reads -------------------------------------------------

  // The fast registers: frequency and three voltages, then three currents.
  const FAST_VOLTAGES: seq<Target> := [InSet(33), InSet(0), InSet(1), InSet(2)]
  const FAST_CURRENTS: seq<Target> := [InSet(3), InSet(4), InSet(5)]

  // The values of a block response go to consecutive targets.
  function StoreBlock(m: Meter, l: Line, targets: seq<Target>): Meter
    requires BusValid(l.bus) && |targets| <= 4
    decreases |targets|
  {
    if targets == [] then m else
    var n := |targets| - 1;
    NewData(StoreBlock(m, l, targets[..n]), ResponseWord(l.bus, n), Definition(0, targets[n], T5, false))
  }

  // What the fast tick does with a response that is no error.
  function FastVoltages(m: Meter, l: Line, o: Outside): Meter
    requires BusValid(l.bus)
  {
    NotePhases(StoreBlock(m, l, FAST_VOLTAGES), o).(scan := m.scan.(fastTime := Now(l)))
  }

  // meter_iskra_fast_tick
  function IskraFastTick(l: Line, m: Meter, o: Outside): (after: Station)
    requires BusValid(l.bus)
    ensures after.line.clock == l.clock
  {
    if m.fast.state == 0 then
      Station(Ask(l, ReadInput, m.slave, 106, 8), m.(fast := Fast(1, true, Now(l))))
    else if m.fast.state == 1 then
      var r := ResponseOf(l, ReadInput);
      if r.Pending? then Station(l, m) else
      var n := AfterResponse(m, l, true);
      Station(Done(l), (if r.Good? then FastVoltages(n, l, o) else n).(fast := m.fast.(state := 2)))
    else if m.fast.state == 2 then
      Station(Ask(l, ReadInput, m.slave, 127, 6), m.(fast := m.fast.(state := 3)))
    else if m.fast.state == 3 then
      var r := ResponseOf(l, ReadInput);
      if r.Pending? then Station(l, m) else
      var n := AfterResponse(m, l, true);
      var taken := if r.Good? then StoreBlock(n, l, FAST_CURRENTS) else n;
      Station(Done(l), taken.(fast := m.fast.(state := 0, active := false)))
    else
      Station(l, m.(fast := m.fast.(state := 0, active := false)))
  }

  predicate FastTurn(l: Line, m: Meter) {
    m.fast.active || (m.state == 0 && Elapsed(Now(l), m.fast.start, 100))
  }

  // meter_iskra_tick
  function IskraTick(l: Line, m: Meter, t: Table, o: Outside): (after: Station)
    requires BusValid(l.bus) && Positioned(m, t)
    ensures after.line.clock == l.clock
  {
    if FastTurn(l, m) then IskraFastTick(l, m, o)
    else if m.state <= 1 then IskraScan(l, m, t, o)
    else IskraStatus(l, m, o)
  }

  predicate IskraWraps(c: Scan, t: Table)
    requires c.fullPosition + 1 < |t|
  {
    t[c.fullPosition + 1].target.EndMarker?
  }

  function NextRegister(c: Scan, t: Table): Scan
    requires c.fullPosition + 1 < |t|
  {
    if IskraWraps(c, t) then c.(fullPosition := 0, readOnce := true, newFastValue := true)
    else c.(fullPosition := c.fullPosition + 1)
  }

  // Its states 0 and 1: one register at a time up to the stop marker.
  function IskraScan(l: Line, m: Meter, t: Table, o: Outside): (after: Station)
    requires BusValid(l.bus) && Positioned(m, t)
    ensures after.line.clock == l.clock
  {
    var d := t[m.scan.fullPosition];
    if m.state == 0 then
      Station(AskFor(l, m.slave, d), m.(state := 1))
    else
      var r := ResponseOf(l, ReadInput);
      if r.Pending? then Station(l, m) else
      var n := NewData(AfterResponse(m, l, true), Data(l, r, RegisterSize(d), o.unset), d);
      var all := if IskraWraps(m.scan, t) then WithRegisters(n, IskraCompleted(n.readings.registers)) else n;
      Station(Done(l), all.(state := 2, scan := NextRegister(m.scan, t)))
  }

  // Its states 2 to 6: two status registers once every full scan.
  function IskraStatus(l: Line, m: Meter, o: Outside): (after: Station)
    requires BusValid(l.bus)
    ensures after.line.clock == l.clock
  {
    if m.state == 2 && FullScanDone(m.scan) then Station(l, NotePhases(m, o).(state := 3))
    else if m.state == 3 then
      Station(Ask(l, ReadHolding, m.slave, 7001, 1), m.(state := 4))
    else if m.state == 5 then
      Station(Ask(l, ReadHolding, m.slave, 7053, 1), m.(state := 6))
    else if m.state == 4 || m.state == 6 then
      var r := ResponseOf(l, ReadHolding);
      if r.Pending? then Station(l, m) else
      var n := AfterResponse(m, l, true);
      var readings :=
        if m.state == 4 then n.readings.(measurementStatus := Data(l, r, 1, m.readings.measurementStatus))
        else n.readings.(signatureStatus := Data(l, r, 1, m.readings.signatureStatus));
      Station(Done(l), n.(readings := readings, state := m.state + 1))
    else Station(l, m.(state := 0))
  }

  // ----- Eltako ---------------------------------------------------------------------------------------

  // How many steps meter_eltako_handle_register_set_read_done takes after state 0.
  function DerivedSteps(meterType: MeterType): nat { if meterType.Dsz15Dzmod? then 19 else 8 }

  // The register each step computes; step 10 of a DSZ15DZMOD only prepares step 11.
  function DerivedTarget(meterType: MeterType, step: nat): Option<Target> {
    if meterType.Dsz15Dzmod? then
      match step
      case 1 => Some(InSet(9)) case 2 => Some(InSet(10)) case 3 => Some(InSet(11))
      case 4 => Some(InSet(13)) case 5 => Some(InSet(15)) case 6 => Some(InSet(17))
      case 7 => Some(InSet(21)) case 8 => Some(InSet(22)) case 9 => Some(InSet(23))
      case 11 => Some(InSet(44)) case 12 => Some(InSet(24)) case 13 => Some(InSet(25)) case 14 => Some(InSet(26))
      case 15 => Some(InSet(28)) case 16 => Some(InSet(30)) case 17 => Some(InSet(32)) case 18 => Some(InSet(57))
      case 19 => Some(InSet(33))
      case _ => None
    else
      match step
      case 1 => Some(InSet(21)) case 2 => Some(InSet(21)) case 3 => Some(InSet(22)) case 4 => Some(InSet(22))
      case 5 => Some(InSet(23)) case 6 => Some(InSet(23)) case 7 => Some(InSet(32)) case 8 => Some(InSet(32))
      case _ => None
  }

  // Without a hardware version the frequency of a DSZ15DZMOD, its last step, is not known.
  function WithDerived(m: Meter, step: nat): Meter {
    match DerivedTarget(m.meterType, step)
    case None => m
    case Some(target) =>
      var value := if m.meterType.Dsz15Dzmod? && step == 19 then NaN else Derived(step);
      WithRegisters(m, m.readings.registers[target := value])
  }

  function ReadDone(m: Meter): Meter {
    WithRegisters(m, Completed(m.readings.registers)).(scan := m.scan.(readOnce := true))
  }

  function ResponseWords(l: Line, n: nat): (words: seq<Word>)
    requires BusValid(l.bus) && n <= 38
    ensures |words| == n
  {
    seq(n, i requires 0 <= i < n => ResponseWord(l.bus, i))
  }

  predicate EltakoShape(m: Meter, t: Table) {
    EltakoTable(t) && |m.eltako.data| == ELTAKO_REGISTERS && (m.state == 2 ==> m.eltako.index <= Count(t))
  }

  // meter_eltako_tick; the request is cleared only after its data has been handled value by value.
  function EltakoTick(l: Line, m: Meter, t: Table, o: Outside): (after: Station)
    requires BusValid(l.bus) && EltakoShape(m, t)
    ensures after.line.clock == l.clock
  {
    if m.state == 0 then
      Station(Ask(l, ReadInput, m.slave, t[0].register, ELTAKO_REGISTERS), m.(state := 1))
    else if m.state == 1 then
      var r := ResponseOf(l, ReadInput);
      if r.Pending? then Station(l, m) else
      var data := if r.Good? then ResponseWords(l, 38) + m.eltako.data[38..] else m.eltako.data;
      Station(OnNoteException(l), AfterResponse(m, l, true).(state := 2, eltako := Eltako(Now(l), data, true, 0)))
    else if m.state == 2 then EltakoHandle(l, m, t, o)
    else Station(l, EltakoDerive(l, m))
  }

  // Its state 2: one value of the table per tick.
  function EltakoHandle(l: Line, m: Meter, t: Table, o: Outside): (after: Station)
    requires BusValid(l.bus) && EltakoShape(m, t) && m.state == 2
    ensures after.line.clock == l.clock
  {
    var e := m.eltako;
    if !e.isNew then Station(l, m.(state := 3)) else
    var d := t[e.index];
    if d.register != 0 then
      Station(l, NewData(m, e.data[(d.register - 1) / 2], d).(eltako := e.(index := e.index + 1)))
    else
      Station(OnClear(l), NotePhases(m, o).(state := 3, eltako := e.(isNew := true, index := 1)))
  }

  // Its state 3: derived values, one per tick, until the next request is due.
  function EltakoDerive(l: Line, m: Meter): Meter {
    var e := m.eltako;
    if m.state != 3 || Elapsed(Now(l), e.since, 100) then
      m.(state := 0, eltako := if m.state == 3 then e.(isNew := false, index := 0) else e)
    else if !e.isNew then m
    else if e.index <= DerivedSteps(m.meterType) then
      (if e.index == 0 then ReadDone(m) else WithDerived(m, e.index)).(eltako := e.(index := e.index + 1))
    else
      var n := ReadDone(m);
      n.(scan := n.scan.(newFastValue := true), eltako := e.(isNew := false, index := 0))
  }

  // ----- meter_tick -----------------------------------------------------------------------------------

  predicate MeterShape(m: Meter, t: Tables) {
    var table := TableOf(t, m.meterType);
    (IsEastron(m.meterType) || IsGeneric(m.meterType) || IsIskra(m.meterType) ==> Positioned(m, table)) &&
    (IsEltako(m.meterType) ==> EltakoShape(m, table))
  }

  function DriverTick(l: Line, m: Meter, t: Tables, o: Outside): (after: Station)
    requires BusValid(l.bus) && TablesOk(t) && MeterShape(m, t)
    ensures after.line.clock == l.clock
  {
    var table := TableOf(t, m.meterType);
    if IsEastron(m.meterType) then EastronTick(l, m, table, o)
    else if IsGeneric(m.meterType) then GenericTick(l, m, table, o)
    else if IsIskra(m.meterType) then IskraTick(l, m, table, o)
    else if IsEltako(m.meterType) then EltakoTick(l, m, table, o)
    else Station(l, m)
  }

  // Waits after an error and after start-up.
  function Awake(g: Guard, now: nat): (bool, Guard) {
    if g.errorWait != 0 && !Elapsed(now, g.errorWait, 500) then (false, g) else
    var n := g.(errorWait := 0);
    if n.firstTick != 0 && !Elapsed(now, n.firstTick, 2500) then (false, n) else (true, n.(firstTick := 0))
  }

  // The tick spins forever once the state has not changed for a minute, so that the watchdog resets.
  function Watched(g: Guard, state: nat, now: nat): Guard {
    if g.lastState != state then g.(timeout := now, lastState := state)
    else g.(stuck := Elapsed(now, g.timeout, 60000))
  }

  function MeterTick(l: Line, m: Meter, t: Tables, o: Outside): (after: Station)
    requires BusValid(l.bus) && TablesOk(t) && MeterShape(m, t)
    ensures after.line.clock == l.clock
  {
    if m.guard.stuck || m.meterType.Unsupported? then Station(l, m) else
    var (awake, guard) := Awake(m.guard, Now(l));
    if !awake then Station(l, m.(guard := guard))
    else if m.meterType.Unknown? then FindMeterType(l, m.(guard := guard))
    else
      var n := m.(guard := Watched(guard, m.state, Now(l)));
      if n.guard.stuck then Station(l, n) else DriverTick(l, n, t, o)
  }
}
