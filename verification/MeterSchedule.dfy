/** Which register the drivers read next: the order of the scans, their turns, and what is written back. */
module MeterSchedule {
  import opened Wrappers
  import opened Clock
  import opened Modbus
  import opened ModbusLine
  import opened MeterScan
  import opened MeterDrivers
  import opened Requests
  import opened MeterRuns
  import opened MeterAnswers
  import opened MeterProgress
  import Crc16
  import R = Ringbuffers

  // ----- Eastron and generic ----------------------------------------------------------------------

  // The entry of the kind that follows a position around the table, and whether the end marker lies between.
  function Following(t: Table, position: nat, fast: bool): Walk
    requires Terminated(t) && HasKind(t, fast) && position < Count(t)
  {
    ScansCycle(t, position, fast, 1);
    PlaceAt(Positions(t, 0, fast), Passed(t, position, fast))
  }

  lemma FollowingIs(t: Table, position: nat, fast: bool)
    requires Terminated(t) && HasKind(t, fast) && position < Count(t)
    ensures var next, walk := NextEntry(t, position, fast), Following(t, position, fast);
            next.position == walk.position && (next.wrapped <==> walk.wraps == 1) && walk.wraps <= 1
  {
    hide Positions, Terminated, HasKind, Count, PlaceAt, NextEntry, Passed;
    ScansCycle(t, position, fast, 1);
    assert ScanMany(t, NextEntry(t, position, fast).position, fast, 0) ==
           Walk(NextEntry(t, position, fast).position, 0);
  }

  // A response moves the scan that asked to the following entry of its kind and leaves the other scan alone. A fast
  // scan ends with its last entry; the next one is due within 500 ms of then, but never at once.
  lemma ScanMovesOn(l: Line, m: Meter, t: Table, o: Outside)
    requires BusValid(l.bus) && Positioned(m, t) && HasBothKinds(t) && !ResponseOf(l, ReadInput).Pending?
    ensures var before, after := m.scan, ReadScan(l, m, t, o).meter.scan;
            var walk := Following(t, Position(before), before.readFast);
            if before.readFast then
              && after.fastPosition == walk.position && after.fullPosition == before.fullPosition
              && after.readOnce == before.readOnce
              && (after.readFast <==> walk.wraps == 0)
              && (walk.wraps == 0 ==> after == before.(fastPosition := walk.position))
              && (walk.wraps == 1 ==> after.newFastValue && !Elapsed(Now(l), after.fastTime, 500))
            else
              && after.fullPosition == walk.position && after.fastPosition == before.fastPosition
              && after.fastTime == before.fastTime && !after.readFast
              && (after.readOnce <==> before.readOnce || walk.wraps == 1)
  {
    hide BusValid, Terminated, Count, HasKind, ResponseOf, Data, Done, RegisterSize, Completed, AfterResponse,
         Following, NextEntry, Elapsed;
    FollowingIs(t, Position(m.scan), m.scan.readFast);
    NextIsLater(m.scan.fastTime, Now(l));
  }

  lemma NextIsLater(fastTime: nat, now: nat)
    ensures var next := (fastTime + 500) % WRAP;
            !Elapsed(now, if Elapsed(now, next, 500) then now else next, 500)
  {
    assert (now - now) % WRAP == 0;
  }

  // Between two registers: a fast scan that is under way goes on, and one begins when 500 ms have passed; otherwise
  // the full scan has its turn. Asked is the entry at which the scan stands.
  lemma ScanAsksNext(l: Line, m: Meter, t: Table)
    requires BusValid(l.bus) && Positioned(m, t)
    ensures var fast := m.scan.readFast || (Now(l) - m.scan.fastTime) % WRAP >= 500;
            var position := if fast then m.scan.fastPosition else m.scan.fullPosition;
            var after := RequestScan(l, m, t);
            && position < |t| && after.meter == m.(state := 1, scan := m.scan.(readFast := fast))
            && after.line == Ask(l, ReadInput, m.slave, t[position].register, RegisterSize(t[position]))
  {
    hide BusValid, Count, RegisterSize, Ask;
  }

  // The full scan can starve here as well: when the last register of a fast scan is not answered, the wait after the
  // error outlasts its turn, and the next tick that comes through begins the next fast scan.
  lemma FastScanRepeats(l: Line, m: Meter, t: Table, o: Outside, later: nat)
    requires BusValid(l.bus) && Positioned(m, t) && HasBothKinds(t) && !ResponseOf(l, ReadInput).Pending?
    requires m.scan.readFast && Following(t, m.scan.fastPosition, true).wraps == 1
    requires l.bus.request.timedOut && Now(l) != 0 && l.clock <= later < l.clock + WRAP - 500
    ensures var after := ReadScan(l, m, t, o).meter;
            && after.state == 0 && after.scan.fullPosition == m.scan.fullPosition
            && (Awake(after.guard, Stamp(later)).0 ==> Elapsed(Stamp(later), after.scan.fastTime, 500))
  {
    FollowingIs(t, m.scan.fastPosition, true);
    ReadScanGuard(l, m, t, o);
    var after := ReadScan(l, m, t, o).meter;
    hide BusValid, Terminated, Count, HasKind, ReadScan, Following, NextEntry, Elapsed;
    if Awake(after.guard, Stamp(later)).0 {
      ElapsedIsReal(later, l.clock, 500);
      LaterStill(l.clock, later, m.scan.fastTime);
    }
  }

  lemma ReadScanGuard(l: Line, m: Meter, t: Table, o: Outside)
    requires BusValid(l.bus) && Positioned(m, t) && HasBothKinds(t) && !ResponseOf(l, ReadInput).Pending?
    requires m.scan.readFast && NextEntry(t, m.scan.fastPosition, true).wrapped && l.bus.request.timedOut
    ensures var after := ReadScan(l, m, t, o).meter;
            && after.guard.errorWait == Now(l) && after.state == 0
            && after.scan.fastTime == FastScanDone(m.scan, Now(l)).fastTime
            && after.scan.fullPosition == m.scan.fullPosition
  {
    hide BusValid, Terminated, Count, HasKind, ResponseOf, Data, Done, RegisterSize, Completed, NextEntry, Elapsed,
         HasError;
  }

  // What was due within 500 ms is overdue 500 ms later.
  lemma LaterStill(clock: nat, later: nat, fastTime: nat)
    requires clock + 500 <= later < clock + WRAP - 500
    ensures var next := (fastTime + 500) % WRAP;
            var due := if Elapsed(Stamp(clock), next, 500) then Stamp(clock) else next;
            Elapsed(Stamp(later), due, 500)
  {
    var next := (fastTime + 500) % WRAP;
    var due := if Elapsed(Stamp(clock), next, 500) then Stamp(clock) else next;
    Later(clock, due, later - clock);
    NextIsLater(fastTime, Stamp(clock));
  }

  // ----- Eastron: the system type -----------------------------------------------------------------

  // The system type read, or the old one if that failed, is kept with the phases now connected. The password for a
  // rewrite is written next exactly when the type is three phases with only the first connected, one phase with all
  // three connected, or neither type; otherwise the scan goes on.
  lemma SystemTypeDecides(l: Line, m: Meter, o: Outside, later: Line)
    requires BusValid(l.bus) && BusValid(later.bus) && IsEastron(m.meterType) && m.state == 3
    requires !ResponseOf(l, ReadHolding).Pending? && !m.readings.newSystemType
    ensures var p, noted := o.phases, EastronReadType(l, m, o).meter;
            var kind := if ResponseOf(l, ReadHolding).Good? then ResponseWord(l.bus, 0) else m.readings.systemType;
            var after := EastronWriteType(later, noted);
            && noted.state == 4 && noted.readings.systemType == kind && noted.readings.phases == p
            && !after.meter.readings.newSystemType
            && var fits := if kind == Word(0x40, 0x40, 0, 0) then !(p.l1 && !p.l2 && !p.l3)
                           else kind == Word(0x3F, 0x80, 0, 0) && !(p.l1 && p.l2 && p.l3);
               if fits then after.line == later && after.meter.state == 0
               else
                 && after.meter.state == 5
                 && EastronAsks(after.meter, []) ==
                      Some(Writing(WriteMultiple, m.slave, if m.meterType.Sdm72V2? then 15 else 25, PASSWORD))
  {
    hide BusValid, ResponseOf, Done, AskWrite, OnClear, HasError;
  }

  // What is written as the new system type fits the phases it was chosen for, so that reading it back does not bring
  // the driver to write it again; nothing is written for phases that fit neither type.
  lemma RewriteFits(l: Line, m: Meter)
    requires BusValid(l.bus) && IsEastron(m.meterType) && m.state == 6
    ensures var p, after := m.readings.phases, EastronWriteType(l, m);
            var asked := EastronAsks(after.meter, []);
            if OnlyFirst(p) || AllPhases(p) then
              after.meter.state == 7 && asked.Some? && asked.value.Writing? && !Misfit(asked.value.value, p)
            else
              after.meter.state == 0 && after.line == l && Misfit(ONE_PHASE, p) == Misfit(THREE_PHASES, p) == false
  {
    hide BusValid, AskWrite, OnClear;
  }

  // ----- Iskra: the status registers --------------------------------------------------------------

  // After the last register of the full scan, and only then, the two status registers are read: the tick after the
  // response notes the phases, the next one asks for the first of them.
  lemma StatusAfterFullScan(l: Line, m: Meter, t: Table, o: Outside)
    requires BusValid(l.bus) && Positioned(m, t) && IskraShape(m) && m.state == 1 && !m.fast.active
    requires !ResponseOf(l, ReadInput).Pending?
    ensures m.scan.fullPosition + 1 < |t|
    ensures var after := IskraTick(l, m, t, o);
            && after.meter.state == 2 && !after.meter.fast.active
            && after.meter.scan.fullPosition ==
                 (if t[m.scan.fullPosition + 1].target.EndMarker? then 0 else m.scan.fullPosition + 1)
  {
    hide BusValid, ResponseOf, Data, Done, RegisterSize, IskraCompleted, Elapsed, HasError;
  }

  lemma StatusIsAsked(l: Line, m: Meter, t: Table, o: Outside)
    requires BusValid(l.bus) && Positioned(m, t) && IskraShape(m) && m.state == 2
    ensures var noted := IskraTick(l, m, t, o);
            && noted.line == l
            && (noted.meter.state == 3 <==> m.scan.fullPosition == 0 && m.scan.readOnce)
            && (noted.meter.state != 3 ==> noted.meter == m.(state := 0))
            && (noted.meter.state == 3 ==>
                 && noted.meter.readings.phases == o.phases && Positioned(noted.meter, t)
                 && var asked := IskraTick(l, noted.meter, t, o);
                    IskraAsks(asked.meter, t) == Some(Reading(ReadHolding, m.slave, 7001, 1)))
  {
    hide BusValid, Ask, Count, Terminated, Elapsed;
  }

  // The second one follows the first, and then the scan begins again; a failed read leaves the old status.
  lemma SecondStatus(l: Line, m: Meter, t: Table, o: Outside)
    requires BusValid(l.bus) && Positioned(m, t) && IskraShape(m) && m.state in {4, 5, 6, 7}
    requires m.state in {4, 6} ==> !ResponseOf(l, ReadHolding).Pending?
    ensures var after := IskraTick(l, m, t, o).meter;
            && after.state == (if m.state == 7 then 0 else m.state + 1)
            && (m.state == 5 ==> IskraAsks(after, t) == Some(Reading(ReadHolding, m.slave, 7053, 1)))
            && (ResponseOf(l, ReadHolding).Failed? || m.state in {5, 7} ==>
                 after.readings.measurementStatus == m.readings.measurementStatus &&
                 after.readings.signatureStatus == m.readings.signatureStatus)
  {
    hide BusValid, Ask, Count, Terminated, Elapsed, ResponseOf, Done, HasError;
  }

  // ----- Eltako: its period -----------------------------------------------------------------------

  // The next block is asked for when 100 ms have passed since the last one was answered; until then the tick makes
  // at most one step of what is derived from it.
  lemma EltakoPeriod(l: Line, m: Meter)
    requires m.state == 3
    ensures var after, e := EltakoDerive(l, m), m.eltako;
            && (after.state == 0 <==> (Now(l) - e.since) % WRAP >= 100)
            && (after.state == 0 ==> after.readings == m.readings && !after.eltako.isNew)
            && (after.state != 0 ==>
                 after.eltako.since == e.since &&
                 (if !e.isNew then after == m
                  else if e.index <= DerivedSteps(m.meterType) then after.eltako == e.(index := e.index + 1)
                  else !after.eltako.isNew && after.scan.newFastValue))
  {}

  // ----- Waits ------------------------------------------------------------------------------------

  // A timeout that a tick has taken at an instant other than 0 keeps the driver off the bus for 500 ms, not longer.
  lemma ErrorHolds(l: Line, m: Meter, taken: Line, t: Tables, o: Outside, read: bool)
    requires BusValid(l.bus) && BusValid(taken.bus) && TablesOk(t) && MeterShape(m, t)
    requires taken.bus.request.timedOut && Now(taken) != 0 && m.guard == AfterResponse(m, taken, read).guard
    requires taken.clock <= l.clock < taken.clock + WRAP && !m.guard.stuck && !m.meterType.Unsupported?
    ensures l.clock - taken.clock < 500 ==> MeterTick(l, m, t, o) == Station(l, m)
    ensures l.clock - taken.clock >= 500 && m.guard.firstTick == 0 ==>
              Awake(m.guard, Now(l)) == (true, m.guard.(errorWait := 0))
  {
    hide BusValid, TablesOk, MeterShape, FindMeterType, DriverTick, Watched, HasError, Elapsed;
    assert m.guard.errorWait == Now(taken);
    ElapsedWithinWrap(l.clock, taken.clock, 500);
  }

  // Nothing is asked in the first 2500 ms after booting at an instant other than 0; then the first tick asks.
  lemma StartHolds(l: Line, boot: nat, t: Tables, o: Outside)
    requires BusValid(l.bus) && TablesOk(t) && Stamp(boot) != 0 && boot <= l.clock < boot + WRAP
    ensures MeterShape(BootMeter(Stamp(boot)), t)
    ensures var m := BootMeter(Stamp(boot));
            if l.clock - boot < 2500 then MeterTick(l, m, t, o) == Station(l, m)
            else DetectionAsks(MeterTick(l, m, t, o).meter.detection) == Some(Reading(ReadHolding, Slave01, 0x100D, 1))
  {
    hide BusValid, TablesOk, Elapsed, Ask, OnResetCounters;
    ElapsedWithinWrap(l.clock, boot, 2500);
  }

  // ----- Energies ---------------------------------------------------------------------------------

  // What a value amounts to, for any meaning of the bytes of a response, any noted values and any derived ones.
  function Amount(v: Value, converted: (Word, DataType) -> real, noted: Target -> real, derived: nat -> real): real {
    match v
    case NaN => 0.0
    case Zero => 0.0
    case Converted(data, dataType) => converted(data, dataType)
    case Noted(target) => noted(target)
    case Thousandth(of) => Amount(of, converted, noted, derived) / 1000.0
    case Minus(left, right) => Amount(left, converted, noted, derived) - Amount(right, converted, noted, derived)
    case Derived(step) => derived(step)
  }

  // The energies since the reset: with what was noted they add up to the energies read, and they balance if both do.
  lemma ResetBalances(registers: Registers, converted: (Word, DataType) -> real, noted: Target -> real,
                      derived: nat -> real)
    ensures var after := Completed(registers);
            var kWh := (target: Target) => Amount(ValueAt(after, target), converted, noted, derived);
            && kWh(IMPORT_RESETTABLE) + noted(IMPORT) == kWh(IMPORT)
            && kWh(EXPORT_RESETTABLE) + noted(EXPORT) == kWh(EXPORT)
            && kWh(SUM_RESETTABLE) + noted(SUM) == kWh(SUM)
            && (kWh(SUM) == kWh(IMPORT) - kWh(EXPORT) && noted(SUM) == noted(IMPORT) - noted(EXPORT) ==>
                 kWh(SUM_RESETTABLE) == kWh(IMPORT_RESETTABLE) - kWh(EXPORT_RESETTABLE))
    ensures forall target :: target !in {IMPORT_RESETTABLE, EXPORT_RESETTABLE, SUM_RESETTABLE} ==>
              ValueAt(Completed(registers), target) == ValueAt(registers, target)
  {
    CompletedValues(registers);
    var after := Completed(registers);
    hide Completed, ValueAt;
    forall read, target | ValueAt(after, read) == Minus(ValueAt(after, target), Noted(target))
      ensures Amount(ValueAt(after, read), converted, noted, derived) + noted(target) ==
              Amount(ValueAt(after, target), converted, noted, derived)
    {
      assert Amount(Noted(target), converted, noted, derived) == noted(target);
    }
  }

  lemma CompletedValues(registers: Registers)
    ensures var after := Completed(registers);
            && ValueAt(after, IMPORT_RESETTABLE) == Minus(ValueAt(after, IMPORT), Noted(IMPORT))
            && ValueAt(after, EXPORT_RESETTABLE) == Minus(ValueAt(after, EXPORT), Noted(EXPORT))
            && ValueAt(after, SUM_RESETTABLE) == Minus(ValueAt(after, SUM), Noted(SUM))
    ensures forall target :: target !in {IMPORT_RESETTABLE, EXPORT_RESETTABLE, SUM_RESETTABLE} ==>
              ValueAt(Completed(registers), target) == ValueAt(registers, target)
  {}

  // An Iskra meter's energies come from its counters, and its sum is what was imported without what was exported.
  lemma IskraBalances(registers: Registers, converted: (Word, DataType) -> real, noted: Target -> real,
                      derived: nat -> real)
    ensures var after := IskraCompleted(registers);
            var kWh := (target: Target) => Amount(ValueAt(after, target), converted, noted, derived);
            && kWh(SUM) == kWh(IMPORT) - kWh(EXPORT)
            && 1000.0 * kWh(IMPORT) == Amount(ValueAt(registers, IMPORT_COUNTER), converted, noted, derived)
            && 1000.0 * kWh(EXPORT) == Amount(ValueAt(registers, EXPORT_COUNTER), converted, noted, derived)
            && (noted(SUM) == noted(IMPORT) - noted(EXPORT) ==>
                 kWh(SUM_RESETTABLE) == kWh(IMPORT_RESETTABLE) - kWh(EXPORT_RESETTABLE))
  {
    var energies := IskraEnergies(registers);
    IskraEnergyValues(registers);
    ResetBalances(energies, converted, noted, derived);
    hide Completed, ValueAt, IskraEnergies;
  }

  function IskraEnergies(registers: Registers): Registers {
    var imported, exported :=
      Thousandth(ValueAt(registers, IMPORT_COUNTER)), Thousandth(ValueAt(registers, EXPORT_COUNTER));
    registers[IMPORT := imported][EXPORT := exported][SUM := Minus(imported, exported)]
  }

  lemma IskraEnergyValues(registers: Registers)
    ensures var energies := IskraEnergies(registers);
            && IskraCompleted(registers) == Completed(energies)
            && ValueAt(energies, IMPORT) == Thousandth(ValueAt(registers, IMPORT_COUNTER))
            && ValueAt(energies, EXPORT) == Thousandth(ValueAt(registers, EXPORT_COUNTER))
            && ValueAt(energies, SUM) == Minus(ValueAt(energies, IMPORT), ValueAt(energies, EXPORT))
  {
    hide Completed;
  }
}
