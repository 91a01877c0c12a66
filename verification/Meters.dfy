/** The meter drivers as they update the meter and RS485 structures in place. */
module MeterContext {
  import opened Wrappers
  import opened Clock
  import opened Modbus
  import opened ModbusLine
  import opened MeterScan
  import D = MeterDrivers
  import opened MeterRuns
  import opened Rs485Context

  class Meters {
    const rs485: Rs485
    const tables: D.Tables
    var meterType: D.MeterType
    var slave: D.Slave
    var state: nat
    var detection: D.Detection
    var fast: D.Fast
    var eltako: D.Eltako
    var scan: D.Scan
    var guard: D.Guard
    var readings: D.Readings
    // The bus with its history.
    ghost var line: Line

    ghost function MeterView(): D.Meter
      reads this
    {
      D.Meter(meterType, slave, state, detection, fast, eltako, scan, guard, readings)
    }

    ghost function View(): D.Station
      reads this
    {
      D.Station(line, MeterView())
    }

    ghost predicate Valid()
      reads this, rs485.Repr()
    {
      rs485.IsValid() && line.bus == rs485.View()
    }

    // meter_init on a bus that modbus_init has set up.
    constructor (bus: Rs485, t: D.Tables, now: nat, ghost clock: nat)
      requires bus.IsValid() && Boots(bus.View()) && now == Stamp(clock)
      ensures Valid() && rs485 == bus && tables == t
      ensures View() == D.Station(BootLine(bus.View(), clock), BootMeter(now))
    {
      rs485 := bus;
      tables := t;
      var boot := BootMeter(now);
      meterType, slave, state, detection, fast := boot.meterType, boot.slave, boot.state, boot.detection, boot.fast;
      eltako, scan, guard, readings := boot.eltako, boot.scan, boot.guard, boot.readings;
      line := BootLine(bus.View(), clock);
    }

    // ----- Requests and responses -------------------------------------------------------------------

    // meter_read_registers
    method ReadRegisters(fc: D.FunctionCode, to: D.Slave, register: nat, count: nat, now: nat)
      requires Valid() && now == Now(line)
      modifies this`line, rs485.Repr()
      ensures Valid() && BusValid(old(line).bus) && line == D.Ask(old(line), fc, to, register, count)
    {
      hide Send, ReadPayload, BusValid;
      rs485.ReadRegisters(D.CodeOf(fc), D.AddressOf(to), register, count, now);
      line := D.Ask(line, fc, to, register, count);
    }

    // meter_write_register
    method WriteRegister(fc: D.FunctionCode, to: D.Slave, register: nat, value: Word, now: nat)
      requires Valid() && now == Now(line)
      modifies this`line, rs485.Repr()
      ensures Valid() && BusValid(old(line).bus) && line == D.AskWrite(old(line), fc, to, register, value)
    {
      hide Send, WritePayload, BusValid;
      rs485.WriteRegister(D.CodeOf(fc), D.AddressOf(to), register, value, now);
      line := D.AskWrite(line, fc, to, register, value);
    }

    // modbus_clear_request
    method ClearRequest()
      requires Valid()
      modifies this`line, rs485.Repr()
      ensures Valid() && line == OnClear(old(line)) && Now(line) == old(Now(line))
    {
      hide Modbus.ClearRequest, BusValid;
      rs485.ClearRequest();
      line := OnClear(line);
    }

    // meter_is_response_ready
    method IsResponseReady(fc: D.FunctionCode) returns (ready: bool)
      requires Valid()
      ensures BusValid(line.bus) && ready == !D.ResponseOf(line, fc).Pending?
    {
      hide BusValid, HasError;
      LongestResponse(rs485.View());
      if rs485.mode != Master || rs485.request.state != Waiting ||
         rs485.tx.buffer[1] != D.CodeOf(fc) || !rs485.request.cbInvoke {
        return false;
      }
      return true;
    }

    // meter_has_errors
    method HasErrors(now: nat) returns (error: bool)
      requires Valid() && now == Now(line)
      modifies this`line, this`guard, rs485
      ensures Valid() && BusValid(old(line).bus) && line == OnNoteException(old(line))
      ensures error == HasError(old(line).bus)
      ensures guard == if old(line).bus.request.timedOut then old(guard).(errorWait := now) else old(guard)
    {
      hide BusValid, Modbus.NoteException, IsExceptionOf;
      LongestResponse(rs485.View());
      var timedOut := rs485.request.timedOut;
      error := timedOut || IsExceptionOf(rs485.rx.buffer[1], rs485.tx.buffer[1]);
      if timedOut {
        guard := guard.(errorWait := now);
      }
      rs485.NoteException();
      line := OnNoteException(line);
    }

    // The checks that meter_get_read_registers_response and meter_get_write_register_response start with;
    // only a read response makes the meter available.
    method TakeResponse(fc: D.FunctionCode, read: bool, now: nat) returns (r: D.Response)
      requires Valid() && now == Now(line)
      modifies this`line, this`guard, this`readings, rs485
      ensures Valid() && BusValid(old(line).bus) && r == D.ResponseOf(old(line), fc)
      ensures r.Pending? ==> View() == old(View())
      ensures !r.Pending? ==>
                View() == D.Station(OnNoteException(old(line)), D.AfterResponse(old(MeterView()), old(line), read))
    {
      hide BusValid, ResponseReady, HasError, OnNoteException;
      var ready := IsResponseReady(fc);
      if !ready {
        return D.Pending;
      }
      var error := HasErrors(now);
      if !error && read {
        readings := readings.(available := true);
      }
      return if error then D.Failed else D.Good;
    }

    // What meter_get_read_registers_response stores for one or two registers.
    method ReadData(r: D.Response, size: nat, before: Word) returns (data: Word)
      requires Valid()
      ensures BusValid(line.bus) && data == D.Data(line, r, size, before)
    {
      hide BusValid;
      LongestResponse(rs485.View());
      if !r.Good? {
        return before;
      }
      var d := rs485.rx.buffer;
      if size == 1 {
        return Word(before.b3, before.b2, d[3], d[4]);
      }
      return Word(d[3], d[4], d[5], d[6]);
    }

    // A response of one or two registers with its data.
    method TakeWord(fc: D.FunctionCode, size: nat, before: Word, now: nat) returns (r: D.Response, data: Word)
      requires Valid() && now == Now(line)
      modifies this`line, this`guard, this`readings, rs485
      ensures Valid() && BusValid(old(line).bus) && r == D.ResponseOf(old(line), fc)
      ensures r.Pending? ==> View() == old(View())
      ensures !r.Pending? ==>
                && View() == D.Station(OnNoteException(old(line)), D.AfterResponse(old(MeterView()), old(line), true))
                && detection == old(detection) && data == D.Data(old(line), r, size, before)
    {
      hide BusValid, D.ResponseOf, OnNoteException, D.AfterResponse, D.Data;
      ghost var l, m := line, MeterView();
      data := before;
      r := TakeResponse(fc, true, now);
      if !r.Pending? {
        data := ReadData(r, size, before);
        SameData(l, r, size, before);
        AfterKeepsDetection(m, l, true);
      }
    }

    // The i-th 32-bit value of a longer response.
    method ReadWord(i: nat) returns (data: Word)
      requires Valid() && i < 38
      ensures BusValid(line.bus) && data == ResponseWord(line.bus, i)
    {
      hide BusValid;
      LongestResponse(rs485.View());
      var d := rs485.rx.buffer;
      return Word(d[3 + 4 * i], d[4 + 4 * i], d[5 + 4 * i], d[6 + 4 * i]);
    }

    // ----- Detection --------------------------------------------------------------------------------

    // meter_generic_is_connected
    method GenericIsConnected(now: nat) returns (found: D.Found)
      requires Valid() && now == Now(line)
      modifies this, rs485.Repr()
      ensures Valid() && BusValid(old(line).bus)
      ensures var f := D.GenericFind(old(line), old(detection));
              found == f.found && View() == D.Station(f.line, D.AfterFinding(old(MeterView()), old(line), f))
    {
      hide BusValid, D.Ask, D.ResponseOf, OnClear, OnNoteException, D.AfterResponse, D.Data;
      ghost var l := line;
      if detection.generic == 0 {
        ReadRegisters(D.ReadHolding, D.Slave01, 0x100D, 1, now);
        detection := detection.(generic := 1);
        return D.Detecting;
      } else if detection.generic == 1 {
        var r, code := TakeWord(D.ReadHolding, 1, D.NO_WORD, now);
        if !r.Pending? {
          detection := detection.(generic := 0);
          ClearRequest();
          if code.b1 == 0 && code.b0 == 6 {
            return D.Is(D.Dem4A);
          }
          return D.Is(D.Unknown);
        }
        return D.Detecting;
      }
      detection := detection.(generic := 0);
      return D.Is(D.Unknown);
    }

    // meter_eastron_is_connected
    method EastronIsConnected(now: nat) returns (found: D.Found)
      requires Valid() && now == Now(line)
      modifies this, rs485.Repr()
      ensures Valid() && BusValid(old(line).bus)
      ensures var f := D.EastronFind(old(line), old(detection));
              found == f.found && View() == D.Station(f.line, D.AfterFinding(old(MeterView()), old(line), f))
    {
      hide BusValid, D.Ask, D.ResponseOf, OnClear, OnNoteException, D.AfterResponse, D.Data, D.EastronCode;
      ghost var l := line;
      if detection.eastron == 0 {
        ReadRegisters(D.ReadHolding, D.Slave01, 64515, 1, now);
        detection := detection.(eastron := 1);
        return D.Detecting;
      } else if detection.eastron == 1 {
        var r, code := TakeWord(D.ReadHolding, 1, D.NO_WORD, now);
        if !r.Pending? {
          detection := detection.(eastron := 0);
          ClearRequest();
          return D.Is(D.EastronCode(code));
        }
        return D.Detecting;
      }
      detection := detection.(eastron := 0);
      return D.Is(D.Unknown);
    }

    // meter_eltako_is_connected, states 0 to 3
    method EltakoIsConnected(now: nat) returns (found: D.Found)
      requires Valid() && now == Now(line)
      modifies this, rs485.Repr()
      ensures Valid() && BusValid(old(line).bus)
      ensures var f := D.EltakoFind(old(line), old(detection));
              found == f.found && View() == D.Station(f.line, D.AfterFinding(old(MeterView()), old(line), f))
    {
      hide BusValid, D.Ask, D.ResponseOf, OnClear, OnNoteException, D.AfterResponse, D.Data, D.EltakoDirection;
      ghost var l := line;
      if detection.eltako == 0 {
        ReadRegisters(D.ReadHolding, D.Slave01, 64515, 2, now);
        detection := detection.(eltako := 1);
        return D.Detecting;
      } else if detection.eltako == 2 {
        ReadRegisters(D.ReadHolding, D.Slave01, 64525, 2, now);
        detection := detection.(eltako := 3);
        return D.Detecting;
      } else if detection.eltako == 1 || detection.eltako == 3 {
        found := EltakoCode(now);
      } else {
        found := EltakoSetDirection(now);
      }
    }

    // Its states 1 and 3: the manufacturing code and the meter code.
    method EltakoCode(now: nat) returns (found: D.Found)
      requires Valid() && now == Now(line) && (detection.eltako == 1 || detection.eltako == 3)
      modifies this, rs485.Repr()
      ensures Valid() && BusValid(old(line).bus)
      ensures var f := D.EltakoFind(old(line), old(detection));
              found == f.found && View() == D.Station(f.line, D.AfterFinding(old(MeterView()), old(line), f))
    {
      hide BusValid, D.ResponseOf, OnClear, OnNoteException, D.AfterResponse, D.Data;
      ghost var l := line;
      var r, code := TakeWord(D.ReadHolding, 2, D.NO_WORD, now);
      if r.Pending? {
        return D.Detecting;
      }
      ClearRequest();
      if detection.eltako == 1 {
        if code != Word(0, 0, 0, 0x0D) {
          detection := detection.(eltako := 0);
          return D.Is(D.Unknown);
        }
        detection := detection.(eltako := 2);
        return D.Detecting;
      }
      if code != Word(0, 0, 0, 2) && code != Word(0, 0, 0, 3) {
        return D.Is(D.Dsz15Dzmod);
      }
      detection := detection.(eltako := 4);
      return D.Detecting;
    }

    // Its states 4 to 7: the counting direction.
    method EltakoSetDirection(now: nat) returns (found: D.Found)
      requires Valid() && now == Now(line)
      modifies this, rs485.Repr()
      ensures Valid() && BusValid(old(line).bus)
      ensures var f := D.EltakoDirection(old(line), old(detection));
              found == f.found && View() == D.Station(f.line, D.AfterFinding(old(MeterView()), old(line), f))
    {
      hide BusValid, D.AskWrite, D.ResponseOf, OnClear, OnNoteException, D.AfterResponse;
      ghost var l := line;
      if detection.eltako == 4 {
        ClearRequest();
        WriteRegister(D.WriteSingle, D.Slave01, 63767, Word(0, 0, 0, 0), now);
        detection := detection.(eltako := 5);
        return D.Detecting;
      } else if detection.eltako == 6 {
        ClearRequest();
        WriteRegister(D.WriteSingle, D.Slave01, 63768, Word(0, 0, 0, 1), now);
        detection := detection.(eltako := 7);
        return D.Detecting;
      } else if detection.eltako == 5 || detection.eltako == 7 {
        var r := TakeResponse(D.WriteSingle, false, now);
        if r.Pending? {
          return D.Detecting;
        }
        AfterKeepsDetection(old(MeterView()), l, false);
        ClearRequest();
        if detection.eltako == 5 {
          detection := detection.(eltako := 6);
          return D.Detecting;
        }
        detection := detection.(eltako := 0);
        return D.Is(D.Dsz16Dze);
      }
      detection := detection.(eltako := 0);
      return D.Is(D.Unknown);
    }

    // The model number in a response of four registers.
    method TakeModel(now: nat) returns (r: D.Response, model: D.MeterType)
      requires Valid() && now == Now(line)
      modifies this`line, this`guard, this`readings, rs485
      ensures Valid() && BusValid(old(line).bus) && r == D.ResponseOf(old(line), D.ReadInput)
      ensures r.Pending? ==> View() == old(View())
      ensures !r.Pending? ==>
                && View() == D.Station(OnNoteException(old(line)), D.AfterResponse(old(MeterView()), old(line), true))
                && detection == old(detection)
                && model == if r.Good? then D.IskraModel(ResponseWord(old(line).bus, 0), ResponseWord(old(line).bus, 1))
                            else D.Unknown
    {
      hide BusValid, D.ResponseOf, OnNoteException, D.AfterResponse, ResponseWord, D.IskraModel;
      ghost var l, m := line, MeterView();
      model := D.Unknown;
      r := TakeResponse(D.ReadInput, true, now);
      if !r.Pending? {
        AfterKeepsDetection(m, l, true);
        NoteKeepsRings(l);
        var first, second := D.NO_WORD, D.NO_WORD;
        if r.Good? {
          first := ReadWord(0);
          second := ReadWord(1);
        }
        NoModel(D.NO_WORD);
        model := D.IskraModel(first, second);
      }
    }

    // meter_iskra_is_connected
    method IskraIsConnected(now: nat) returns (found: D.Found)
      requires Valid() && now == Now(line)
      modifies this, rs485.Repr()
      ensures Valid() && BusValid(old(line).bus)
      ensures var f := D.IskraFind(old(line), old(detection));
              found == f.found && View() == D.Station(f.line, D.AfterFinding(old(MeterView()), old(line), f))
    {
      hide BusValid, D.Ask, D.ResponseOf, OnClear, OnNoteException, D.AfterResponse, ResponseWord, D.IskraModel;
      ghost var l := line;
      if detection.iskra == 0 {
        ReadRegisters(D.ReadInput, D.Slave21, 2, 4, now);
        detection := detection.(iskra := 1);
        return D.Detecting;
      } else if detection.iskra == 1 {
        var r, model := TakeModel(now);
        if !r.Pending? {
          detection := detection.(iskra := 0);
          ClearRequest();
          return D.Is(model);
        }
        return D.Detecting;
      }
      detection := detection.(iskra := 0);
      return D.Is(D.Unknown);
    }

    // meter_set_meter_type
    method SetMeterType(newType: D.MeterType, now: nat)
      modifies this`meterType, this`slave, this`guard
      ensures MeterView() == D.SetMeterType(old(MeterView()), newType, now)
    {
      meterType := newType;
      match newType {
        case Wm3M4C => slave := D.Slave21;
        case Wm3M4 => slave := D.Slave21;
        case Unsupported => slave := D.NoSlave;
        case _ => slave := D.Slave01;
      }
      guard := guard.(timeout := now);
    }

    // meter_reset_error_counter
    method ResetErrorCounter()
      requires Valid()
      modifies this`line, rs485
      ensures Valid() && line == OnResetCounters(old(line))
    {
      hide BusValid, ResetCounters;
      rs485.ResetErrorCounter();
      line := OnResetCounters(line);
    }

    // meter_find_meter_type
    method FindMeterType(now: nat)
      requires Valid() && now == Now(line)
      modifies this, rs485.Repr()
      ensures Valid() && BusValid(old(line).bus) && View() == D.FindMeterType(old(line), old(MeterView()))
    {
      hide BusValid, D.GenericFind, D.EastronFind, D.EltakoFind, D.IskraFind, D.AfterFinding, OnResetCounters,
           D.SetMeterType;
      ghost var l, m := line, MeterView();
      var found;
      if detection.find == 0 {
        found := GenericIsConnected(now);
      } else if detection.find == 1 {
        found := EastronIsConnected(now);
      } else if detection.find == 2 {
        found := EltakoIsConnected(now);
      } else if detection.find == 3 {
        found := IskraIsConnected(now);
      } else {
        detection := detection.(find := 0);
        return;
      }
      AfterFindingIs(m, l, D.FindStep(l, m.detection));
      ResetErrorCounter();
      if found.Detecting? {
        return;
      }
      if !found.meterType.Unknown? {
        SetMeterType(found.meterType, now);
        SetKeepsDetection(D.AfterFinding(m, l, D.FindStep(l, m.detection)), found.meterType, now);
        detection := detection.(find := 0);
        return;
      }
      detection := detection.(find := detection.find + 1);
    }

    // ----- Eastron and generic ------------------------------------------------------------------------

    // meter_handle_new_data
    method HandleNewData(data: Word, d: Definition)
      modifies this`readings
      ensures MeterView() == D.NewData(old(MeterView()), data, d)
    {
      readings := readings.(registers := readings.registers[d.target := D.Converted(data, d.dataType)]);
    }

    // The value of a response, or of the unset local if it failed, goes to the definition's register.
    method StoreRegister(r: D.Response, d: Definition, o: D.Outside, ghost l: Line)
      requires Valid() && BusValid(l.bus) && line == OnNoteException(l)
      modifies this`readings
      ensures Valid() && MeterView() == D.NewData(old(MeterView()), D.Data(l, r, RegisterSize(d), o.unset), d)
    {
      hide BusValid, OnNoteException, D.Data, RegisterSize;
      var data := ReadData(r, RegisterSize(d), o.unset);
      SameData(l, r, RegisterSize(d), o.unset);
      HandleNewData(data, d);
    }

    // State 0 of meter_eastron_tick and meter_generic_tick
    method RequestScan(t: Table, now: nat)
      requires Valid() && now == Now(line) && D.Positioned(MeterView(), t) && state == 0
      modifies this, rs485.Repr()
      ensures Valid() && BusValid(old(line).bus) && View() == D.RequestScan(old(line), old(MeterView()), t)
    {
      hide BusValid, D.Ask, Elapsed, RegisterSize;
      if Elapsed(now, scan.fastTime, 500) || scan.readFast {
        var d := t[scan.fastPosition];
        ReadRegisters(D.ReadInput, slave, d.register, RegisterSize(d), now);
        scan := scan.(readFast := true);
      } else {
        var d := t[scan.fullPosition];
        ReadRegisters(D.ReadInput, slave, d.register, RegisterSize(d), now);
        scan := scan.(readFast := false);
      }
      state := state + 1;
    }

    // meter_handle_register_set_read_done
    method HandleReadDone()
      modifies this`readings, this`scan
      ensures MeterView() == D.ReadDone(old(MeterView()))
    {
      var r := readings.registers;
      var relativeImport := D.Minus(D.ValueAt(r, D.IMPORT), D.Noted(D.IMPORT));
      var relativeExport := D.Minus(D.ValueAt(r, D.EXPORT), D.Noted(D.EXPORT));
      var relativeSum := D.Minus(D.ValueAt(r, D.SUM), D.Noted(D.SUM));
      r := r[D.IMPORT_RESETTABLE := relativeImport];
      r := r[D.EXPORT_RESETTABLE := relativeExport];
      r := r[D.SUM_RESETTABLE := relativeSum];
      readings := readings.(registers := r);
      scan := scan.(readOnce := true);
    }

    // The position loops of state 1.
    method MoveScan(t: Table, now: nat)
      requires HasBothKinds(t) && scan.fullPosition < Count(t) && scan.fastPosition < Count(t)
      modifies this`scan, this`readings
      ensures scan == D.ScanOn(old(scan), t, now)
      ensures readings ==
              if D.FullWraps(old(scan), t) then old(readings).(registers := D.Completed(old(readings).registers))
                          else old(readings)
    {
      hide Elapsed, NextEntry, HasKind, Terminated, Count, D.Completed;
      if scan.readFast {
        var next, wraps := MeterScan.Scan(t, scan.fastPosition, true);
        scan := scan.(fastPosition := next);
        if wraps > 0 {
          scan := scan.(fastTime := (scan.fastTime + 500) % WRAP);
          if Elapsed(now, scan.fastTime, 500) {
            scan := scan.(fastTime := now);
          }
          scan := scan.(readFast := false, newFastValue := true);
        }
      } else {
        var next, wraps := MeterScan.Scan(t, scan.fullPosition, false);
        scan := scan.(fullPosition := next);
        if wraps > 0 {
          HandleReadDone();
        }
      }
    }

    // State 1 of meter_eastron_tick and meter_generic_tick
    method ReadScan(t: Table, o: D.Outside, now: nat)
      requires Valid() && now == Now(line) && D.Positioned(MeterView(), t) && HasBothKinds(t)
      requires state == 1
      modifies this, rs485.Repr()
      ensures Valid() && BusValid(old(line).bus) && View() == D.ReadScan(old(line), old(MeterView()), t, o)
    {
      hide BusValid, D.ResponseOf, OnClear, OnNoteException, D.Data, D.ScanOn, RegisterSize, HasKind, HasError,
           Terminated, Count, D.Completed, D.FullWraps;
      ghost var l := line;
      PositionInTable(scan, t);
      var d := t[D.Position(scan)];
      var r := TakeResponse(D.ReadInput, true, now);
      if !r.Pending? {
        StoreRegister(r, d, o, l);
        ClearRequest();
        state := if scan.readFast then 0 else state + 1;
        MoveScan(t, now);
      }
    }

    // meter_handle_phases_connected
    method HandlePhasesConnected(o: D.Outside)
      modifies this`readings
      ensures MeterView() == D.NotePhases(old(MeterView()), o)
    {
      readings := readings.(phases := o.phases);
    }

    // meter_generic_tick
    method GenericTick(t: Table, o: D.Outside, now: nat)
      requires Valid() && now == Now(line) && D.Positioned(MeterView(), t) && HasBothKinds(t)
      modifies this, rs485.Repr()
      ensures Valid() && BusValid(old(line).bus) && View() == D.GenericTick(old(line), old(MeterView()), t, o)
    {
      hide BusValid, D.RequestScan, D.ReadScan, HasKind, Terminated, Count;
      ValidBus();
      if state == 0 {
        RequestScan(t, now);
      } else if state == 1 {
        ReadScan(t, o, now);
      } else if state == 2 {
        if scan.fullPosition != 0 || !scan.readOnce {
          state := 0;
          return;
        }
        HandlePhasesConnected(o);
        state := 0;
      } else {
        state := 0;
      }
    }

    lemma ValidBus()
      requires Valid()
      ensures BusValid(line.bus)
    {}

    // meter_eastron_handle_new_system_type
    method HandleNewSystemType(o: D.Outside)
      modifies this`readings
      ensures MeterView() == D.NoteSystemType(old(MeterView()), old(readings).systemType, o)
    {
      HandlePhasesConnected(o);
      if readings.systemType == D.THREE_PHASES {
        if readings.phases.l1 && !readings.phases.l2 && !readings.phases.l3 {
          readings := readings.(newSystemType := true);
        }
      } else if readings.systemType == D.ONE_PHASE {
        if readings.phases.l1 && readings.phases.l2 && readings.phases.l3 {
          readings := readings.(newSystemType := true);
        }
      } else {
        readings := readings.(newSystemType := true);
      }
    }

    // meter_eastron_tick
    method EastronTick(t: Table, o: D.Outside, now: nat)
      requires Valid() && now == Now(line) && D.Positioned(MeterView(), t) && HasBothKinds(t)
      modifies this, rs485.Repr()
      ensures Valid() && BusValid(old(line).bus) && View() == D.EastronTick(old(line), old(MeterView()), t, o)
    {
      hide BusValid, D.RequestScan, D.ReadScan, D.EastronReadType, D.EastronWriteType, HasKind, Terminated, Count;
      if state == 0 {
        RequestScan(t, now);
      } else if state == 1 {
        ReadScan(t, o, now);
      } else if state <= 3 {
        EastronReadType(o, now);
      } else {
        EastronWriteType(now);
      }
    }

    // Its states 2 and 3
    method EastronReadType(o: D.Outside, now: nat)
      requires Valid() && now == Now(line) && 2 <= state <= 3
      modifies this, rs485.Repr()
      ensures Valid() && BusValid(old(line).bus) && View() == D.EastronReadType(old(line), old(MeterView()), o)
    {
      hide BusValid, D.Ask, D.ResponseOf, OnClear, OnNoteException, D.Data, D.AfterResponse, D.Misfit;
      ValidBus();
      AfterKeepsState(MeterView(), line);
      if state == 2 {
        if scan.fullPosition != 0 || !scan.readOnce {
          state := 0;
          return;
        }
        ReadRegisters(D.ReadHolding, slave, 11, 2, now);
        state := state + 1;
      } else {
        var r, systemType := TakeWord(D.ReadHolding, 2, readings.systemType, now);
        if !r.Pending? {
          TakeSystemType(systemType, o);
        }
      }
    }

    method TakeSystemType(systemType: Word, o: D.Outside)
      requires Valid()
      modifies this, rs485.Repr()
      ensures Valid() && line == OnClear(old(line))
      ensures MeterView() == D.NoteSystemType(old(MeterView()), systemType, o).(state := old(state) + 1)
    {
      hide BusValid, OnClear, D.Misfit;
      readings := readings.(systemType := systemType);
      HandleNewSystemType(o);
      ClearRequest();
      state := state + 1;
    }

    // Its states 4 to 7
    method EastronWriteType(now: nat)
      requires Valid() && now == Now(line) && 4 <= state
      modifies this, rs485.Repr()
      ensures Valid() && BusValid(old(line).bus) && View() == D.EastronWriteType(old(line), old(MeterView()))
    {
      hide BusValid, D.AskWrite, D.ResponseOf, D.AfterResponse, D.Done, OnClear;
      ValidBus();
      if state == 4 {
        if !readings.newSystemType {
          state := 0;
          return;
        }
        readings := readings.(newSystemType := false);
        ClearRequest();
        WriteRegister(D.WriteMultiple, slave, if meterType.Sdm72V2? then 15 else 25, D.PASSWORD, now);
        state := state + 1;
      } else if state == 6 {
        EastronWriteSystemType(now);
      } else if state == 5 || state == 7 {
        AwaitWrite(D.WriteMultiple, now);
      } else {
        state := 0;
      }
    }

    // Its state 6
    method EastronWriteSystemType(now: nat)
      requires Valid() && now == Now(line) && state == 6
      modifies this, rs485.Repr()
      ensures Valid() && BusValid(old(line).bus) && View() == D.EastronWriteType(old(line), old(MeterView()))
    {
      hide BusValid, D.AskWrite, D.ResponseOf, OnClear;
      ValidBus();
      var p := readings.phases;
      var systemType;
      if p.l1 && !p.l2 && !p.l3 {
        systemType := D.ONE_PHASE;
      } else if p.l1 && p.l2 && p.l3 {
        systemType := D.THREE_PHASES;
      } else {
        state := 0;
        return;
      }
      ClearRequest();
      WriteRegister(D.WriteMultiple, slave, 11, systemType, now);
      state := state + 1;
    }

    // A state that only waits for the answer to a write.
    method AwaitWrite(fc: D.FunctionCode, now: nat)
      requires Valid() && now == Now(line)
      modifies this, rs485.Repr()
      ensures Valid() && BusValid(old(line).bus)
      ensures var l, m := old(line), old(MeterView());
              View() == if D.ResponseOf(l, fc).Pending? then D.Station(l, m)
                        else D.Station(D.Done(l), D.AfterResponse(m, l, false).(state := m.state + 1))
    {
      hide BusValid, D.ResponseOf, OnClear, OnNoteException, D.AfterResponse;
      ghost var l, m := line, MeterView();
      var r := TakeResponse(fc, false, now);
      if !r.Pending? {
        AfterResponseIs(m, l, false);
        ClearRequest();
        state := state + 1;
      }
    }

    // ----- Iskra --------------------------------------------------------------------------------------

    // meter_iskra_fast_tick
    method IskraFastTick(o: D.Outside, now: nat)
      requires Valid() && now == Now(line)
      modifies this, rs485.Repr()
      ensures Valid() && BusValid(old(line).bus) && View() == D.IskraFastTick(old(line), old(MeterView()), o)
    {
      hide BusValid, D.Ask, D.ResponseOf, D.AfterResponse, D.StoreBlock, D.Done;
      ValidBus();
      if fast.state == 0 {
        fast := D.Fast(fast.state + 1, true, now);
        ReadRegisters(D.ReadInput, slave, 106, 8, now);
      } else if fast.state == 1 {
        IskraFastVoltages(o, now);
      } else if fast.state == 2 {
        ReadRegisters(D.ReadInput, slave, 127, 6, now);
        fast := fast.(state := fast.state + 1);
      } else if fast.state == 3 {
        IskraFastCurrents(o, now);
      } else {
        fast := fast.(state := 0, active := false);
      }
    }

    // Its state 1
    method IskraFastVoltages(o: D.Outside, now: nat)
      requires Valid() && now == Now(line) && fast.state == 1
      modifies this, rs485.Repr()
      ensures Valid() && BusValid(old(line).bus) && View() == D.IskraFastTick(old(line), old(MeterView()), o)
    {
      hide BusValid, D.ResponseOf, OnClear, OnNoteException, D.AfterResponse, D.FastVoltages;
      ghost var l, m := line, MeterView();
      var r := TakeResponse(D.ReadInput, true, now);
      if !r.Pending? {
        AfterResponseIs(m, l, true);
        if r.Good? {
          StoreVoltages(o, now, l);
          FastVoltagesIs(D.AfterResponse(m, l, true), l, o);
        }
        ClearRequest();
        fast := fast.(state := fast.state + 1);
      }
    }

    method StoreVoltages(o: D.Outside, now: nat, ghost l: Line)
      requires Valid() && BusValid(l.bus) && line == OnNoteException(l) && now == Now(l)
      modifies this`readings, this`scan
      ensures Valid() && MeterView() == D.FastVoltages(old(MeterView()), l, o)
    {
      hide BusValid, OnNoteException, D.StoreBlock;
      StoreBlockIs(MeterView(), l, D.FAST_VOLTAGES);
      HandleBlock(D.FAST_VOLTAGES, l);
      HandlePhasesConnected(o);
      scan := scan.(fastTime := now);
    }

    // Its state 3
    method IskraFastCurrents(o: D.Outside, now: nat)
      requires Valid() && now == Now(line) && fast.state == 3
      modifies this, rs485.Repr()
      ensures Valid() && BusValid(old(line).bus) && View() == D.IskraFastTick(old(line), old(MeterView()), o)
    {
      hide BusValid, D.ResponseOf, OnClear, OnNoteException, D.AfterResponse, D.StoreBlock;
      ghost var l, m := line, MeterView();
      var r := TakeResponse(D.ReadInput, true, now);
      if !r.Pending? {
        AfterResponseIs(m, l, true);
        if r.Good? {
          HandleBlock(D.FAST_CURRENTS, l);
          StoreBlockIs(D.AfterResponse(m, l, true), l, D.FAST_CURRENTS);
        }
        ClearRequest();
        fast := fast.(state := 0, active := false);
      }
    }

    // One meter_handle_new_data for each value of a block response.
    method HandleBlock(targets: seq<Target>, ghost l: Line)
      requires Valid() && |targets| <= 4 && BusValid(l.bus) && line == OnNoteException(l)
      modifies this`readings
      ensures Valid() && MeterView() == D.StoreBlock(old(MeterView()), l, targets)
    {
      hide BusValid, OnNoteException, ResponseWord;
      NoteKeepsRings(l);
      for i := 0 to |targets|
        invariant Valid() && MeterView() == D.StoreBlock(old(MeterView()), l, targets[..i]) && line == old(line)
      {
        assert targets[..i + 1][..i] == targets[..i];
        var data := ReadWord(i);
        HandleNewData(data, Definition(0, targets[i], T5, false));
      }
      assert targets[..|targets|] == targets;
    }

    // meter_iskra_tick
    method IskraTick(t: Table, o: D.Outside, now: nat)
      requires Valid() && now == Now(line) && D.Positioned(MeterView(), t)
      modifies this, rs485.Repr()
      ensures Valid() && BusValid(old(line).bus) && View() == D.IskraTick(old(line), old(MeterView()), t, o)
    {
      hide BusValid, D.IskraFastTick, D.IskraScan, D.IskraStatus, Elapsed, Terminated, Count;
      if fast.active || (state == 0 && Elapsed(now, fast.start, 100)) {
        IskraFastTick(o, now);
        return;
      }
      if state <= 1 {
        IskraScan(t, o, now);
      } else {
        IskraStatus(o, now);
      }
    }

    // Its states 0 and 1
    method IskraScan(t: Table, o: D.Outside, now: nat)
      requires Valid() && now == Now(line) && D.Positioned(MeterView(), t) && state <= 1
      modifies this, rs485.Repr()
      ensures Valid() && BusValid(old(line).bus) && View() == D.IskraScan(old(line), old(MeterView()), t, o)
    {
      hide BusValid, D.AskFor, D.ResponseOf, RegisterSize, Terminated, Count;
      ValidBus();
      EntryInTable(scan.fullPosition, t);
      if state == 0 {
        ReadRegister(t[scan.fullPosition], now);
        state := state + 1;
      } else {
        IskraTakeRegister(t, o, now);
      }
    }

    method ReadRegister(d: Definition, now: nat)
      requires Valid() && now == Now(line)
      modifies this`line, rs485.Repr()
      ensures Valid() && BusValid(old(line).bus) && line == D.AskFor(old(line), slave, d)
    {
      hide BusValid, D.Ask, RegisterSize;
      ReadRegisters(D.ReadInput, slave, d.register, RegisterSize(d), now);
    }

    // Its state 1
    method IskraTakeRegister(t: Table, o: D.Outside, now: nat)
      requires Valid() && now == Now(line) && D.Positioned(MeterView(), t) && state == 1
      modifies this, rs485.Repr()
      ensures Valid() && BusValid(old(line).bus) && View() == D.IskraScan(old(line), old(MeterView()), t, o)
    {
      hide BusValid, D.AskFor, D.ResponseOf, D.AfterResponse, OnClear, OnNoteException, D.Data, D.NextRegister,
           RegisterSize, Terminated, Count, D.IskraCompleted, D.IskraWraps;
      ghost var l, m := line, MeterView();
      EntryInTable(scan.fullPosition, t);
      var d := t[scan.fullPosition];
      var r := TakeResponse(D.ReadInput, true, now);
      if !r.Pending? {
        AfterResponseIs(m, l, true);
        StoreRegister(r, d, o, l);
        IskraNext(t);
      }
    }

    // The request is done with, the scan goes on.
    method IskraNext(t: Table)
      requires Valid() && scan.fullPosition + 1 < |t|
      modifies this, rs485.Repr()
      ensures Valid() && line == OnClear(old(line))
      ensures var m := old(MeterView());
              var all :=
                if D.IskraWraps(m.scan, t) then D.WithRegisters(m, D.IskraCompleted(m.readings.registers)) else m;
              MeterView() == all.(state := m.state + 1, scan := D.NextRegister(m.scan, t))
    {
      hide BusValid, OnClear, D.IskraCompleted, D.IskraWraps, D.NextRegister;
      ClearRequest();
      state := state + 1;
      NextRegister(t);
    }

    // meter_iskra_handle_register_set_read_done
    method IskraHandleReadDone()
      modifies this`readings, this`scan
      ensures MeterView() == D.WithRegisters(old(MeterView()), D.IskraCompleted(old(readings).registers)).(scan :=
                               old(scan).(readOnce := true, newFastValue := true))
    {
      hide D.ValueAt, D.Completed;
      var r := readings.registers;
      var imported, exported :=
        D.Thousandth(D.ValueAt(r, D.IMPORT_COUNTER)), D.Thousandth(D.ValueAt(r, D.EXPORT_COUNTER));
      r := r[D.IMPORT := imported];
      r := r[D.EXPORT := exported];
      r := r[D.SUM := D.Minus(imported, exported)];
      readings := readings.(registers := r);
      HandleReadDone();
      scan := scan.(newFastValue := true);
    }

    method NextRegister(t: Table)
      requires scan.fullPosition + 1 < |t|
      modifies this`scan, this`readings
      ensures scan == D.NextRegister(old(scan), t)
      ensures readings ==
              if D.IskraWraps(old(scan), t) then old(readings).(registers := D.IskraCompleted(old(readings).registers))
                          else old(readings)
    {
      hide D.IskraCompleted;
      scan := scan.(fullPosition := scan.fullPosition + 1);
      if t[scan.fullPosition].target.EndMarker? {
        scan := scan.(fullPosition := 0);
        IskraHandleReadDone();
      }
    }

    // Its states 2 to 6
    method IskraStatus(o: D.Outside, now: nat)
      requires Valid() && now == Now(line) && state >= 2
      modifies this, rs485.Repr()
      ensures Valid() && BusValid(old(line).bus) && View() == D.IskraStatus(old(line), old(MeterView()), o)
    {
      hide BusValid, D.Ask, D.ResponseOf, D.AfterResponse, D.Done, D.Data;
      ValidBus();
      if state == 2 {
        if scan.fullPosition != 0 || !scan.readOnce {
          state := 0;
          return;
        }
        HandlePhasesConnected(o);
        state := state + 1;
      } else if state == 3 {
        ReadRegisters(D.ReadHolding, slave, 7001, 1, now);
        state := state + 1;
      } else if state == 5 {
        ReadRegisters(D.ReadHolding, slave, 7053, 1, now);
        state := state + 1;
      } else if state == 4 || state == 6 {
        IskraReadStatus(o, now);
      } else {
        state := 0;
      }
    }

    // Its states 4 and 6
    method IskraReadStatus(o: D.Outside, now: nat)
      requires Valid() && now == Now(line) && (state == 4 || state == 6)
      modifies this, rs485.Repr()
      ensures Valid() && BusValid(old(line).bus) && View() == D.IskraStatus(old(line), old(MeterView()), o)
    {
      hide BusValid, D.ResponseOf, D.AfterResponse, OnClear, OnNoteException, D.Data, D.IskraStatus;
      ghost var l, m := line, MeterView();
      var before := if state == 4 then readings.measurementStatus else readings.signatureStatus;
      var r, data := TakeWord(D.ReadHolding, 1, before, now);
      StatusIs(l, m, o, r, data);
      if !r.Pending? {
        ghost var n := MeterView();
        AfterResponseIs(m, l, true);
        readings := if state == 4 then readings.(measurementStatus := data) else readings.(signatureStatus := data);
        ClearRequest();
        state := state + 1;
        assert MeterView() == n.(readings := readings, state := state);
      }
    }

    // ----- Eltako -------------------------------------------------------------------------------------

    // meter_eltako_tick
    method EltakoTick(t: Table, o: D.Outside, now: nat)
      requires Valid() && now == Now(line) && D.EltakoShape(MeterView(), t)
      modifies this, rs485.Repr()
      ensures Valid() && BusValid(old(line).bus) && View() == D.EltakoTick(old(line), old(MeterView()), t, o)
    {
      hide BusValid, D.Ask, D.ResponseOf, D.AfterResponse, OnNoteException, D.ResponseWords, D.EltakoTable,
           D.EltakoHandle, D.EltakoDerive;
      ghost var l, m := line, MeterView();
      ValidBus();
      if state == 0 {
        EltakoTableHasEntry(t);
        ReadRegisters(D.ReadInput, slave, t[0].register, D.ELTAKO_REGISTERS, now);
        state := state + 1;
      } else if state == 1 {
        var r := TakeResponse(D.ReadInput, true, now);
        if !r.Pending? {
          AfterResponseIs(m, l, true);
          var data := eltako.data;
          if r.Good? {
            var words := ReadWords(38, l);
            data := words + data[38..];
          }
          eltako := D.Eltako(now, data, true, 0);
          state := state + 1;
        }
      } else if state == 2 {
        EltakoHandle(t, o);
      } else {
        EltakoDerive(now);
      }
    }

    method ReadWords(n: nat, ghost l: Line) returns (words: seq<Word>)
      requires Valid() && n <= 38 && BusValid(l.bus) && line == OnNoteException(l)
      ensures words == D.ResponseWords(l, n)
    {
      hide BusValid, ResponseWord, OnNoteException;
      NoteKeepsRings(l);
      words := [];
      for i := 0 to n
        invariant |words| == i && forall k :: 0 <= k < i ==> words[k] == ResponseWord(l.bus, k)
      {
        var word := ReadWord(i);
        words := words + [word];
      }
    }

    // Its state 2
    method EltakoHandle(t: Table, o: D.Outside)
      requires Valid() && D.EltakoShape(MeterView(), t) && state == 2
      modifies this, rs485.Repr()
      ensures Valid() && BusValid(old(line).bus) && View() == D.EltakoHandle(old(line), old(MeterView()), t, o)
    {
      hide BusValid, OnClear, D.EltakoTable;
      ValidBus();
      if eltako.isNew {
        EltakoEntry(t, eltako.index);
        var d := t[eltako.index];
        if d.register != 0 {
          HandleNewData(eltako.data[(d.register - 1) / 2], d);
          eltako := eltako.(index := eltako.index + 1);
        } else {
          state := state + 1;
          ClearRequest();
          HandlePhasesConnected(o);
          eltako := eltako.(isNew := true, index := 1);
        }
      } else {
        state := state + 1;
      }
    }

    // meter_eltako_handle_register_set_read_done in one of its states
    method DeriveValue(step: nat)
      modifies this`readings, this`scan
      ensures MeterView() == if step == 0 then D.ReadDone(old(MeterView())) else D.WithDerived(old(MeterView()), step)
    {
      if step == 0 {
        HandleReadDone();
        return;
      }
      hide D.DerivedTarget;
      var target := D.DerivedTarget(meterType, step);
      if target.Some? {
        var value := if meterType.Dsz15Dzmod? && step == 19 then D.NaN else D.Derived(step);
        readings := readings.(registers := readings.registers[target.value := value]);
      }
    }

    // Its state 3 and default
    method EltakoDerive(now: nat)
      requires Valid() && now == Now(line)
      modifies this
      ensures Valid() && BusValid(line.bus) &&
              View() == D.Station(old(line), D.EltakoDerive(old(line), old(MeterView())))
    {
      hide BusValid, Elapsed, D.DerivedSteps, D.WithDerived, D.ReadDone;
      ValidBus();
      if state == 3 {
        if Elapsed(now, eltako.since, 100) {
          eltako := eltako.(isNew := false, index := 0);
          state := 0;
        } else if eltako.isNew {
          if eltako.index <= D.DerivedSteps(meterType) {
            DeriveValue(eltako.index);
            eltako := eltako.(index := eltako.index + 1);
          } else {
            HandleReadDone();
            scan := scan.(newFastValue := true);
            eltako := eltako.(isNew := false, index := 0);
          }
        }
      } else {
        state := 0;
      }
    }

    // ----- meter_tick -----------------------------------------------------------------------------------

    // Its waits after an error and after start-up
    method CheckAwake(now: nat) returns (awake: bool)
      modifies this`guard
      ensures (awake, guard) == D.Awake(old(guard), now) && guard.stuck == old(guard).stuck
    {
      hide Elapsed;
      ghost var g := guard;
      assert g.errorWait == 0 ==> g == g.(errorWait := 0);
      if guard.errorWait != 0 {
        if !Elapsed(now, guard.errorWait, 500) {
          return false;
        }
        guard := guard.(errorWait := 0);
      }
      assert guard.firstTick == 0 ==> guard == guard.(firstTick := 0);
      if guard.firstTick != 0 {
        if !Elapsed(now, guard.firstTick, 2500) {
          return false;
        }
        guard := guard.(firstTick := 0);
      }
      return true;
    }

    // Its switch over the drivers
    method DriverTick(o: D.Outside, now: nat)
      requires Valid() && now == Now(line) && D.TablesOk(tables) && D.MeterShape(MeterView(), tables)
      modifies this, rs485.Repr()
      ensures Valid() && BusValid(old(line).bus) && View() == D.DriverTick(old(line), old(MeterView()), tables, o)
    {
      hide BusValid, D.EastronTick, D.GenericTick, D.IskraTick, D.EltakoTick, HasKind, Terminated, Count, D.EltakoTable;
      ValidBus();
      var table := D.TableOf(tables, meterType);
      if D.IsEastron(meterType) {
        EastronTick(table, o, now);
      } else if D.IsGeneric(meterType) {
        GenericTick(table, o, now);
      } else if D.IsIskra(meterType) {
        IskraTick(table, o, now);
      } else if D.IsEltako(meterType) {
        EltakoTick(table, o, now);
      }
    }

    // meter_tick; `stuck` stands for the loop that waits for the watchdog.
    method Tick(o: D.Outside, now: nat)
      requires Valid() && now == Now(line) && D.TablesOk(tables) && D.MeterShape(MeterView(), tables)
      modifies this, rs485.Repr()
      ensures Valid() && BusValid(old(line).bus) && View() == D.MeterTick(old(line), old(MeterView()), tables, o)
    {
      hide BusValid, D.DriverTick, D.FindMeterType, D.TablesOk, Elapsed, D.Awake, D.Positioned, D.EltakoTable;
      ValidBus();
      if guard.stuck || meterType.Unsupported? {
        return;
      }
      var awake := CheckAwake(now);
      if !awake {
        return;
      }
      if meterType.Unknown? {
        FindMeterType(now);
        return;
      }
      if guard.lastState != state {
        guard := guard.(timeout := now, lastState := state);
      } else {
        guard := guard.(stuck := Elapsed(now, guard.timeout, 60000));
        if guard.stuck {
          return;
        }
      }
      GuardShape(old(MeterView()), guard, tables);
      DriverTick(o, now);
    }

    // ----- The other events -----------------------------------------------------------------------------

    // Time passes.
    method Pass(ms: nat)
      requires Valid()
      modifies this`line
      ensures Valid() && line == Advance(old(line), ms)
    {
      line := Advance(line, ms);
    }

    // rs485_rx_irq_handler
    method RxInterrupt(bytes: seq<bv8>, now: nat)
      requires Valid() && now == Now(line)
      modifies this`line, rs485.Repr()
      ensures Valid() && BusValid(old(line).bus) && line == OnRxInterrupt(old(line), bytes)
    {
      hide BusValid, Modbus.RxInterrupt;
      ValidBus();
      rs485.RxIrqHandler(bytes, now);
      line := OnRxInterrupt(line, bytes);
    }

    // rs485_tx_irq_handler
    method TxInterrupt(room: nat) returns (out: seq<bv8>)
      requires Valid()
      modifies this`line, rs485.Repr()
      ensures Valid() && BusValid(old(line).bus) && line == OnTxInterrupt(old(line), room)
      ensures line.sent == old(line).sent + out
    {
      hide BusValid, Modbus.TxInterrupt, Transmitted;
      ValidBus();
      out := rs485.TxIrqHandler(room);
      line := OnTxInterrupt(line, room);
    }

    // rs485_tick
    method BusTick(bytes: seq<bv8>, now: nat)
      requires Valid() && now == Now(line)
      modifies this`line, rs485.Repr()
      ensures Valid() && BusValid(old(line).bus) && old(line).bus.lastLength <= old(line).bus.rx.size
      ensures line == OnRs485Tick(old(line), bytes)
    {
      hide BusValid, Rs485Tick, OnRs485Tick;
      ValidBus();
      LastLengthFits();
      BusTickIs(line, bytes);
      rs485.Tick(bytes, now);
      line := OnRs485Tick(line, bytes);
    }

    lemma LastLengthFits()
      requires Valid()
      ensures line.bus.lastLength <= line.bus.rx.size
    {
      hide BusValid;
    }

    // Any event, performed in place, is a step of the runs and keeps what every run keeps.
    method Perform(e: Event, now: nat)
      requires Valid() && now == Now(line) && D.TablesOk(tables) && StationInv(View(), tables)
      modifies this, rs485.Repr()
      ensures Valid() && View() == Step(old(View()), e, tables) && StationInv(View(), tables)
    {
      hide Inv, BusValid, D.TablesOk, DriverShape, Agrees, D.MeterShape, D.MeterTick, Advance, OnRxInterrupt,
           OnTxInterrupt, OnRs485Tick;
      StepKeeps(View(), e, tables);
      InvLength(line);
      ShapeForTick(MeterView(), tables);
      match e
      case Pass(ms) => Pass(ms);
      case RxIrq(bytes) => RxInterrupt(bytes, now);
      case TxIrq(room) => var _ := TxInterrupt(room);
      case BusTick(bytes) => BusTick(bytes, now);
      case MainTick(o) => Tick(o, now);
    }

    // Any number of events in any order are a run; `start` is the time at which they begin.
    method PerformAll(events: seq<Event>, start: nat)
      requires Valid() && start == line.clock && D.TablesOk(tables) && StationInv(View(), tables)
      modifies this, rs485.Repr()
      ensures Valid() && StationInv(View(), tables) && View() == Run(old(View()), events, tables)
    {
      hide D.TablesOk, StationInv, Step, Run;
      var clock := start;
      NoEvents(View(), tables);
      assert events[..0] == [];
      for i := 0 to |events|
        invariant Valid() && line.clock == clock && StationInv(View(), tables)
        invariant View() == Run(old(View()), events[..i], tables)
      {
        ghost var before := View();
        Perform(events[i], clock % WRAP);
        RunOneMore(old(View()), events, i, tables);
        ClockMoves(before, events[i], tables);
        if events[i].Pass? {
          clock := clock + events[i].ms;
        }
      }
      assert events[..|events|] == events;
    }
  }

  lemma NoEvents(s: D.Station, t: D.Tables)
    requires D.TablesOk(t) && StationInv(s, t)
    ensures Run(s, [], t) == s
  {
    hide D.TablesOk, StationInv;
  }


  // The history adds nothing to the bus.
  lemma BusTickIs(l: Line, bytes: seq<bv8>)
    requires BusValid(l.bus) && l.bus.lastLength <= l.bus.rx.size
    ensures OnRs485Tick(l, bytes).bus == Rs485Tick(l.bus, bytes, Now(l))
  {
    hide BusValid, ReceiveAll, EventOf, Handle;
  }

  // A firmware's life: bus and meter are set up, and events happen in any order. What it ends in is a state
  // that a run reaches.
  method Live(tables: D.Tables, rxSize: nat, txSize: nat, timeout: nat, start: nat, events: seq<Event>)
    returns (meters: Meters)
    requires D.TablesOk(tables) && 155 <= rxSize <= 32768 && 14 <= txSize <= 32768
    ensures meters.tables == tables && meters.Valid() && Reached(meters.View(), tables)
  {
    hide D.TablesOk, StationInv, Step, Boots, Run, BootLine, BootMeter;
    var bus := new Rs485(rxSize, txSize, timeout, start % WRAP);
    ghost var boot := bus.View();
    meters := new Meters(bus, tables, start % WRAP, start);
    BootStation(boot, start, tables);
    ClockAtBoot(boot, start);
    meters.PerformAll(events, start);
    assert IsRun(meters.View(), tables, boot, start, events);
  }

  lemma ClockAtBoot(bus: Bus, clock: nat)
    ensures BootLine(bus, clock).clock == clock
  {}

  lemma EntryInTable(i: nat, t: Table)
    requires Terminated(t) && i < Count(t)
    ensures i + 1 < |t|
  {}

  lemma FastVoltagesIs(m: D.Meter, l: Line, o: D.Outside)
    requires BusValid(l.bus)
    ensures var n := D.FastVoltages(m, l, o); n == m.(readings := n.readings, scan := n.scan)
  {
    hide BusValid, D.StoreBlock;
    StoreBlockIs(m, l, D.FAST_VOLTAGES);
  }

  lemma PositionInTable(c: D.Scan, t: Table)
    requires Terminated(t) && c.fullPosition < Count(t) && c.fastPosition < Count(t)
    ensures D.Position(c) < |t|
  {}

  lemma NoModel(w: Word)
    requires w == D.NO_WORD
    ensures D.IskraModel(w, w) == D.Unknown
  {}

  lemma AfterFindingIs(m: D.Meter, l: Line, f: D.Finding)
    requires BusValid(l.bus)
    ensures D.AfterFinding(m, l, f).detection == f.detection
  {
    hide BusValid, D.AfterResponse;
  }

  lemma SetKeepsDetection(m: D.Meter, meterType: D.MeterType, now: nat)
    ensures D.SetMeterType(m, meterType, now).detection == m.detection
  {}

  lemma LongestResponse(b: Bus)
    requires BusValid(b)
    ensures |b.rx.memory| >= 155 && |b.tx.memory| >= 14
  {}

  // Counting an exception does not touch the response.
  lemma SameData(l: Line, r: D.Response, size: nat, before: Word)
    requires BusValid(l.bus)
    ensures BusValid(OnNoteException(l).bus)
    ensures D.Data(OnNoteException(l), r, size, before) == D.Data(l, r, size, before)
  {
    hide BusValid, IsException, ResponseWord;
    NoteKeepsRings(l);
  }

  lemma NoteKeepsRings(l: Line)
    requires BusValid(l.bus)
    ensures BusValid(OnNoteException(l).bus)
    ensures forall i: nat :: i < 38 ==> ResponseWord(OnNoteException(l).bus, i) == ResponseWord(l.bus, i)
  {
    hide IsExceptionOf;
  }

  lemma AfterKeepsState(m: D.Meter, l: Line)
    requires BusValid(l.bus)
    ensures D.AfterResponse(m, l, true).state == m.state
  {
    hide BusValid, HasError;
  }

  // What the Iskra driver does with a status register.
  lemma StatusIs(l: Line, m: D.Meter, o: D.Outside, r: D.Response, data: Word)
    requires BusValid(l.bus) && (m.state == 4 || m.state == 6) && r == D.ResponseOf(l, D.ReadHolding)
    requires var before := if m.state == 4 then m.readings.measurementStatus else m.readings.signatureStatus;
             !r.Pending? ==> data == D.Data(l, r, 1, before)
    ensures r.Pending? ==> D.IskraStatus(l, m, o) == D.Station(l, m)
    ensures var n := D.AfterResponse(m, l, true);
            var noted := if m.state == 4 then n.readings.(measurementStatus := data)
                         else n.readings.(signatureStatus := data);
            !r.Pending? ==> D.IskraStatus(l, m, o) == D.Station(D.Done(l), n.(readings := noted, state := m.state + 1))
  {
    hide BusValid, D.ResponseOf, D.AfterResponse, OnClear, OnNoteException, D.Data;
  }

  lemma AfterKeepsDetection(m: D.Meter, l: Line, read: bool)
    requires BusValid(l.bus)
    ensures D.AfterResponse(m, l, read).detection == m.detection
  {
    hide BusValid, HasError;
  }
}
