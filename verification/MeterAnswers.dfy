/** What is stored was asked for: on every run of bus and drivers, a register receives the checked answer to
    the question about that very register. */
module MeterAnswers {
  import opened Wrappers
  import opened Clock
  import opened Modbus
  import opened ModbusLine
  import opened MeterScan
  import opened MeterDrivers
  import opened Requests
  import opened MeterRuns
  import Crc16
  import R = Ringbuffers

  // After every run the frame in flight is the question that belongs to the state of the driver, whichever
  // driver runs, and there is no frame in flight in the other states.
  lemma RequestFitsState(s: Station, t: Tables)
    requires TablesOk(t) && Reached(s, t)
    ensures var asks := Asks(s.meter, t);
            && (s.line.bus.request.state == Waiting <==> asks.Some?)
            && (asks.Some? ==> s.line.frame == Crc16.WithCrc(PayloadOf(asks.value)))
  {
    hide Reached, TablesOk, Inv, DriverShape, Asks, Crc16.WithCrc, PayloadOf;
    EveryRun(s, t);
  }

  // Register numbers of one table as sixteen bits hold them.
  predicate Numbered(t: Table) { forall i :: 0 <= i < Count(t) ==> 1 <= t[i].register < 65536 }

  predicate AllNumbered(t: Tables) {
    Numbered(t.sdm72v2) && Numbered(t.sdm630) && Numbered(t.dem4a) && Numbered(t.dmed341mid7er) && Numbered(t.wm3m4c) &&
    Numbered(t.dsz15dzmod) && Numbered(t.dsz16dze)
  }

  lemma EntryIsWellFormed(slave: Slave, t: Table, position: nat)
    requires !slave.NoSlave? && Numbered(t) && position < Count(t)
    ensures WellFormed(EntryQuestion(slave, t[position]))
  {
    hide Count;
  }

  lemma NumberedTable(t: Tables, meterType: MeterType)
    requires AllNumbered(t)
    ensures Numbered(TableOf(t, meterType))
  {
    hide Count;
  }

  lemma AsksWellFormed(m: Meter, t: Tables)
    requires DriverShape(m, t) && AllNumbered(t) && Asks(m, t).Some?
    ensures WellFormed(Asks(m, t).value)
  {
    hide Count, AllNumbered, TableOf, RegisterSize, DetectionShape;
    var table := TableOf(t, m.meterType);
    NumberedTable(t, m.meterType);
    hide Numbered;
    if IsEltako(m.meterType) {
      EltakoPositioned(m, table);
      EntryIsWellFormed(m.slave, table, 0);
    } else if m.state == 1 && !m.meterType.Unknown? {
      EntryIsWellFormed(m.slave, table, ScanPosition(m));
    }
  }

  lemma EltakoPositioned(m: Meter, t: Table)
    requires EltakoShape(m, t)
    ensures 0 < Count(t)
  {}

  // On every run, while a request waits, the addressed slave reads from the frame, its checksum taken off,
  // exactly the question that the driver's state stands for.
  lemma SlaveReadsQuestion(s: Station, t: Tables)
    requires TablesOk(t) && AllNumbered(t) && Reached(s, t) && s.line.bus.request.state == Waiting
    ensures Asks(s.meter, t).Some? && WellFormed(Asks(s.meter, t).value) && |s.line.frame| >= 2
    ensures Understand(s.line.frame[..|s.line.frame| - 2]) == Asks(s.meter, t)
  {
    hide Reached, TablesOk, AllNumbered, Inv, DriverShape, Asks, WellFormed, PayloadOf, Understand, Crc16.Crc,
         Crc16.LowByte, Crc16.HighByte;
    EveryRun(s, t);
    RequestFitsState(s, t);
    AsksWellFormed(s.meter, t);
    var q := Asks(s.meter, t).value;
    RequestRoundTrip(q);
    assert s.line.frame[..|s.line.frame| - 2] == PayloadOf(q);
  }

  // The received bytes held are a checked answer to this question and no exception.
  predicate Answers(l: Line, q: Question) {
    BusValid(l.bus) && l.frame == Crc16.WithCrc(PayloadOf(q)) && |l.frame| >= 2 && ValidReply(l.validated, l.frame) &&
    |l.validated| <= l.bus.rx.end && l.bus.rx.memory[..|l.validated|] == l.validated && !HasError(l.bus)
  }

  lemma GoodAnswers(s: Station, t: Tables, q: Question)
    requires StationInv(s, t) && Asks(s.meter, t) == Some(q) && BusValid(s.line.bus) && ResponseOf(s.line, q.fc).Good?
    ensures Answers(s.line, q)
  {
    hide Inv, BusValid, DriverShape, Asks, Crc16.WithCrc, PayloadOf, ValidReply, HasError;
    GoodIsBacked(s.line, q.fc);
  }

  lemma RingFits(b: Bus)
    requires BusValid(b)
    ensures b.rx.end <= |b.rx.memory|
  {}

  // The i-th word of an answer lies between header and checksum of what was checked, if the answer is long
  // enough to hold it.
  lemma WordWasChecked(l: Line, q: Question, i: nat)
    requires Answers(l, q) && i < 38 && |l.validated| >= 9 + 4 * i
    ensures var v := l.validated[3..|l.validated| - 2];
            ResponseWord(l.bus, i) == Word(v[4 * i], v[4 * i + 1], v[4 * i + 2], v[4 * i + 3])
  {
    hide BusValid, ValidReply, HasError, Crc16.WithCrc, PayloadOf;
    var v, memory := l.validated, l.bus.rx.memory;
    RingFits(l.bus);
    assert forall k :: 0 <= k < |v| ==> memory[k] == memory[..|v|][k];
  }

  // What a scan takes from an answer that holds as many registers as it asked for, one or two.
  lemma DataWasChecked(l: Line, q: Question, size: nat, before: Word)
    requires Answers(l, q) && (size == 1 || size == 2) && |l.validated| >= 5 + 2 * size
    ensures BusValid(l.bus)
    ensures var v := l.validated[3..|l.validated| - 2];
            Data(l, Good, size, before) ==
              if size == 1 then Word(before.b3, before.b2, v[0], v[1]) else Word(v[0], v[1], v[2], v[3])
  {
    hide BusValid, ValidReply, HasError, Crc16.WithCrc, PayloadOf;
    var v, memory := l.validated, l.bus.rx.memory;
    RingFits(l.bus);
    assert forall k :: 0 <= k < |v| ==> memory[k] == memory[..|v|][k];
  }

  // The line as it is with another byte in one place of the receive buffer.
  function Altered(l: Line, place: nat): Line
    requires place < |l.bus.rx.memory|
  {
    var memory := l.bus.rx.memory;
    l.(bus := l.bus.(rx := l.bus.rx.(memory := memory[place := memory[place] + 1])))
  }

  // Behind what was checked any byte may stand without the answer being another one.
  lemma AlteredAnswers(l: Line, q: Question, place: nat)
    requires Answers(l, q) && |l.validated| <= place < 155 && 2 <= place
    ensures place < |l.bus.rx.memory| && Answers(Altered(l, place), q)
  {
    hide ValidReply, Crc16.WithCrc, PayloadOf;
    var memory := l.bus.rx.memory;
    assert memory[place := memory[place] + 1][..|l.validated|] == memory[..|l.validated|];
  }

  lemma SamePrefix(k: Line, l: Line, q: Question, place: nat)
    requires Answers(k, q) && Answers(l, q) && k.validated == l.validated && place < |l.validated|
    ensures |k.bus.rx.memory| > place && |l.bus.rx.memory| > place && k.bus.rx.memory[place] == l.bus.rx.memory[place]
  {
    hide BusValid, ValidReply, HasError, Crc16.WithCrc, PayloadOf;
    RingFits(k.bus);
    RingFits(l.bus);
    assert k.bus.rx.memory[place] == k.validated[place] && l.bus.rx.memory[place] == l.validated[place];
  }

  // What a scan stores from an answer depends on nothing but the bytes that were checked if and only if the
  // answer reaches to the last register, counting its checksum.
  lemma {:induction false} DataIsCheckedExactly(l: Line, q: Question, size: nat, before: Word)
    requires Answers(l, q) && (size == 1 || size == 2)
    ensures BusValid(l.bus)
    ensures (forall k: Line :: Answers(k, q) && k.validated == l.validated ==>
               Data(k, Good, size, before) == Data(l, Good, size, before)) <==>
            |l.validated| >= 3 + 2 * size
  {
    hide BusValid, ValidReply, HasError, Crc16.WithCrc, PayloadOf;
    if |l.validated| >= 3 + 2 * size {
      forall k: Line | Answers(k, q) && k.validated == l.validated
        ensures Data(k, Good, size, before) == Data(l, Good, size, before)
      {
        SamePrefix(k, l, q, 3);
        SamePrefix(k, l, q, 4);
        if size == 2 {
          SamePrefix(k, l, q, 5);
          SamePrefix(k, l, q, 6);
        }
        AnswersValid(k, q);
        AnswersValid(l, q);
      }
    } else {
      AlteredAnswers(l, q, 2 + 2 * size);
      AnswersValid(l, q);
      var k := Altered(l, 2 + 2 * size);
      assert k.bus.rx.memory[2 + 2 * size] != l.bus.rx.memory[2 + 2 * size];
      assert Data(k, Good, size, before) != Data(l, Good, size, before);
    }
  }

  // The same of the i-th word of a longer answer.
  lemma {:induction false} WordIsCheckedExactly(l: Line, q: Question, i: nat)
    requires Answers(l, q) && i < 38
    ensures BusValid(l.bus)
    ensures (forall k: Line :: Answers(k, q) && k.validated == l.validated ==>
               ResponseWord(k.bus, i) == ResponseWord(l.bus, i)) <==>
            |l.validated| >= 7 + 4 * i
  {
    hide BusValid, ValidReply, HasError, Crc16.WithCrc, PayloadOf;
    AnswersValid(l, q);
    if |l.validated| >= 7 + 4 * i {
      forall k: Line | Answers(k, q) && k.validated == l.validated
        ensures ResponseWord(k.bus, i) == ResponseWord(l.bus, i)
      {
        AnswersValid(k, q);
        SamePrefix(k, l, q, 3 + 4 * i);
        SamePrefix(k, l, q, 4 + 4 * i);
        SamePrefix(k, l, q, 5 + 4 * i);
        SamePrefix(k, l, q, 6 + 4 * i);
      }
    } else {
      AlteredAnswers(l, q, 6 + 4 * i);
      var k := Altered(l, 6 + 4 * i);
      assert ResponseWord(k.bus, i) != ResponseWord(l.bus, i);
    }
  }

  lemma AnswersValid(l: Line, q: Question)
    requires Answers(l, q)
    ensures BusValid(l.bus) && |l.bus.rx.memory| >= 155
  {
    hide ValidReply, HasError, Crc16.WithCrc, PayloadOf;
  }

  // ----- The scans ------------------------------------------------------------------------------------

  // Where a scan that waits for an answer stands.
  function ScanPosition(m: Meter): nat { if IsIskra(m.meterType) then m.scan.fullPosition else Position(m.scan) }

  predicate Scanning(m: Meter) {
    m.state == 1 && (IsEastron(m.meterType) || IsGeneric(m.meterType) || (IsIskra(m.meterType) && !m.fast.active))
  }

  // The full scan starts over at the end marker.
  predicate StartsOver(m: Meter, after: Meter) {
    (IsIskra(m.meterType) || !m.scan.readFast) && after.scan.fullPosition <= m.scan.fullPosition
  }

  // The registers that are computed whenever it does.
  function ComputedTargets(m: Meter): set<Target> {
    {IMPORT_RESETTABLE, EXPORT_RESETTABLE, SUM_RESETTABLE} + if IsIskra(m.meterType) then {IMPORT, EXPORT, SUM} else {}
  }

  function Computed(m: Meter, registers: Registers): Registers {
    if IsIskra(m.meterType) then IskraCompleted(registers) else Completed(registers)
  }

  function Stored(l: Line, m: Meter, d: Definition, o: Outside): Registers
    requires BusValid(l.bus)
  {
    var r := ResponseOf(l, ReadInput);
    m.readings.registers[d.target := Converted(Data(l, r, RegisterSize(d), o.unset), d.dataType)]
  }

  lemma ScanTick(l: Line, m: Meter, t: Tables, o: Outside)
    requires BusValid(l.bus) && TablesOk(t) && MeterShape(m, t) && Scanning(m)
    ensures var table := TableOf(t, m.meterType);
            && ScanPosition(m) < |table|
            && var after, d := DriverTick(l, m, t, o).meter, table[ScanPosition(m)];
               if ResponseOf(l, ReadInput).Pending? then after == m
               else if StartsOver(m, after) then after.readings.registers == Computed(m, Stored(l, m, d, o))
               else after.readings.registers == Stored(l, m, d, o)
  {
    hide BusValid, Terminated, Count, HasKind, EltakoTable, Data, ResponseOf, Done, RegisterSize, Elapsed, Completed,
         IskraCompleted, NextEntry;
    var table := TableOf(t, m.meterType);
    PositionsInTable(m, table);
    if !IsIskra(m.meterType) && !m.scan.readFast {
      WrapGoesBack(table, m.scan.fullPosition, false);
    }
  }

  lemma ComputedIs(m: Meter, registers: Registers)
    ensures var after := Computed(m, registers);
            && (forall other :: other !in ComputedTargets(m) ==> (other in after <==> other in registers))
            && (forall other :: other in registers && other !in ComputedTargets(m) ==> after[other] == registers[other])
            && (forall target :: target in ComputedTargets(m) ==> target in after)
            && after[IMPORT_RESETTABLE] == Minus(ValueAt(after, IMPORT), Noted(IMPORT))
            && after[EXPORT_RESETTABLE] == Minus(ValueAt(after, EXPORT), Noted(EXPORT))
            && after[SUM_RESETTABLE] == Minus(ValueAt(after, SUM), Noted(SUM))
            && (IsIskra(m.meterType) ==>
                 && after[IMPORT] == Thousandth(ValueAt(registers, IMPORT_COUNTER))
                 && after[EXPORT] == Thousandth(ValueAt(registers, EXPORT_COUNTER))
                 && after[SUM] == Minus(after[IMPORT], after[EXPORT]))
  {}

  // Two register sets differ in these targets at most.
  ghost predicate SameBut(before: Registers, after: Registers, targets: set<Target>) {
    (forall other :: other !in targets ==> (other in after <==> other in before)) &&
    (forall other :: other in before && other !in targets ==> other in after && after[other] == before[other])
  }

  // A full or fast scan of the Eastron, generic or Iskra driver stores nothing while it waits. Once it has an
  // answer, it stores to the target of the entry it stands at, and computes the energy registers exactly when
  // the full scan starts over; no other register changes.
  lemma ScanStoresWhatItAsked(s: Station, t: Tables, o: Outside)
    requires TablesOk(t) && Reached(s, t) && Scanning(s.meter)
    ensures BusValid(s.line.bus) && MeterShape(s.meter, t)
    ensures var l, m, table := s.line, s.meter, TableOf(t, s.meter.meterType);
            && ScanPosition(m) < |table|
            && var d, after := table[ScanPosition(m)], DriverTick(l, m, t, o).meter;
               var before, now, stored := m.readings.registers, after.readings.registers, Stored(l, m, d, o);
               if ResponseOf(l, ReadInput).Pending? then now == before
               else if StartsOver(m, after)
               then SameBut(before, now, {d.target} + ComputedTargets(m)) && now == Computed(m, stored)
               else SameBut(before, now, {d.target}) && now == stored
  {
    hide StationInv, Reached, TablesOk, BusValid, MeterShape, DriverTick, TableOf, Data, ResponseOf, Computed,
         ComputedTargets;
    EveryRun(s, t);
    InvOf(s, t);
    ScanTick(s.line, s.meter, t, o);
    ComputedIs(s.meter, Stored(s.line, s.meter, TableOf(t, s.meter.meterType)[ScanPosition(s.meter)], o));
  }

  // What it stores is the checked answer to the question about that entry's register and size exactly when the
  // response is good; when it failed, it is what the unset local variable holds.
  lemma StoredIsChecked(s: Station, t: Tables, o: Outside)
    requires TablesOk(t) && Reached(s, t) && Scanning(s.meter)
    ensures BusValid(s.line.bus)
    ensures var l, m, table := s.line, s.meter, TableOf(t, s.meter.meterType);
            && ScanPosition(m) < |table|
            && var d, r := table[ScanPosition(m)], ResponseOf(l, ReadInput);
               && (!r.Pending? ==> (Answers(l, EntryQuestion(m.slave, d)) <==> r.Good?))
               && (r.Failed? ==> Stored(l, m, d, o)[d.target] == Converted(o.unset, d.dataType))
  {
    hide StationInv, Reached, TablesOk, BusValid, MeterShape, TableOf, EntryQuestion, RegisterSize, HasError;
    EveryRun(s, t);
    InvOf(s, t);
    ScanAsks(s, t);
    if ResponseOf(s.line, ReadInput).Good? {
      GoodAnswers(s, t, Asks(s.meter, t).value);
    }
  }

  lemma InvOf(s: Station, t: Tables)
    requires StationInv(s, t)
    ensures BusValid(s.line.bus) && MeterShape(s.meter, t)
  {
    hide BusValid, Agrees;
  }

  lemma ScanAsks(s: Station, t: Tables)
    requires StationInv(s, t) && Scanning(s.meter)
    ensures var m, table := s.meter, TableOf(t, s.meter.meterType);
            && ScanPosition(m) < |table|
            && Asks(m, t) == Some(EntryQuestion(m.slave, table[ScanPosition(m)]))
            && Asks(m, t).value.fc == ReadInput
  {
    hide Inv, Agrees, Terminated, Count, EltakoShape, TableOf;
    PositionsInTable(s.meter, TableOf(t, s.meter.meterType));
  }

  // ----- The Iskra fast registers -----------------------------------------------------------------------

  // The block that the fast tick waits for, and where its words go.
  function FastTargets(fastState: nat): seq<Target> {
    if fastState == 1 then FAST_VOLTAGES else if fastState == 3 then FAST_CURRENTS else []
  }

  function FastQuestion(m: Meter): Question {
    Reading(ReadInput, m.slave, if m.fast.state == 1 then 106 else 127, 2 * |FastTargets(m.fast.state)|)
  }

  // The two block reads of the Iskra fast tick ask for exactly the four and three words that it stores.
  lemma FastBlocksAreAsked(s: Station, t: Tables)
    requires TablesOk(t) && Reached(s, t) && IsIskra(s.meter.meterType) && s.meter.fast.state in {1, 3}
    ensures Asks(s.meter, t) == Some(FastQuestion(s.meter)) && FastQuestion(s.meter).fc == ReadInput
    ensures s.line.frame == Crc16.WithCrc(PayloadOf(FastQuestion(s.meter)))
  {
    hide Reached, TablesOk, Inv, MeterShape, Crc16.WithCrc, PayloadOf;
    EveryRun(s, t);
  }

  // A late answer to either block passes for the other one.
  lemma BlocksInterchange(m: Meter, n: Meter, reply: seq<bv8>)
    requires m.slave == n.slave
    ensures var f, g := Crc16.WithCrc(PayloadOf(FastQuestion(m))), Crc16.WithCrc(PayloadOf(FastQuestion(n)));
            |f| >= 2 && |g| >= 2 && (ValidReply(reply, f) <==> ValidReply(reply, g))
  {
    RepliesInterchange(FastQuestion(m), FastQuestion(n));
    hide Crc16.WithCrc, PayloadOf, ValidReply;
  }

  lemma FastTickRegisters(l: Line, m: Meter, o: Outside)
    requires BusValid(l.bus)
    ensures IskraFastTick(l, m, o).meter.readings.registers ==
            if ResponseOf(l, ReadInput).Good? then StoreBlock(m, l, FastTargets(m.fast.state)).readings.registers
            else m.readings.registers
  {
    hide BusValid, ResponseOf, Done, Ask, ResponseWord, StoreBlock;
    var n := AfterResponse(m, l, true);
    AfterResponseIs(m, l, true);
    hide AfterResponse;
    SameBlock(m, n, l, FastTargets(m.fast.state));
    NoBlock(m, l);
  }

  lemma NoBlock(m: Meter, l: Line)
    requires BusValid(l.bus)
    ensures StoreBlock(m, l, []) == m
  {
    hide BusValid;
  }

  // A block only changes registers.
  lemma {:induction false} SameBlock(m: Meter, n: Meter, l: Line, targets: seq<Target>)
    requires BusValid(l.bus) && |targets| <= 4 && m.readings.registers == n.readings.registers
    ensures StoreBlock(m, l, targets).readings.registers == StoreBlock(n, l, targets).readings.registers
    decreases |targets|
  {
    hide BusValid, ResponseWord;
    if targets != [] {
      SameBlock(m, n, l, targets[..|targets| - 1]);
    }
  }

  // One tick of meter_tick runs at most one tick of the driver, with another guard.
  lemma TickIsDriverTick(l: Line, m: Meter, t: Tables, o: Outside)
    requires BusValid(l.bus) && TablesOk(t) && MeterShape(m, t) && !m.meterType.Unknown?
    ensures var after := MeterTick(l, m, t, o);
            after.meter.readings == m.readings ||
            exists g :: MeterShape(m.(guard := g), t) && after == DriverTick(l, m.(guard := g), t, o)
  {
    hide BusValid, TablesOk, MeterShape, DriverTick, Awake, Watched, FindMeterType;
    if !m.guard.stuck && !m.meterType.Unsupported? {
      var g := Watched(Awake(m.guard, Now(l)).1, m.state, Now(l));
      GuardShape(m, g, t);
    }
  }

  // A tick of the Iskra driver writes a fast register in two cases: the fast path holds a checked answer to
  // its block question, or the full scan stands at an entry for that register and has a response, which it
  // stores even if it failed.
  lemma FastRegisterWritten(l: Line, m: Meter, t: Tables, o: Outside, target: Target)
    requires BusValid(l.bus) && TablesOk(t) && MeterShape(m, t) && IsIskra(m.meterType) && IskraShape(m)
    requires target in FAST_VOLTAGES || target in FAST_CURRENTS
    requires ValueAt(DriverTick(l, m, t, o).meter.readings.registers, target) != ValueAt(m.readings.registers, target)
    ensures (FastTurn(l, m) && target in FastTargets(m.fast.state) && ResponseOf(l, ReadInput).Good?) ||
            (Scanning(m) && !ResponseOf(l, ReadInput).Pending? &&
             m.scan.fullPosition < |TableOf(t, m.meterType)| &&
             TableOf(t, m.meterType)[m.scan.fullPosition].target == target)
  {
    hide BusValid, TablesOk, MeterShape, ResponseOf, DriverTick, FastTurn, ValueAt, FastTargets, Scanning, TableOf,
         IskraShape;
    IskraTurn(l, m, t, o);
    if FastTurn(l, m) {
      FastBranch(l, m, o, target);
    } else if m.state == 1 {
      ScanBranch(l, m, t, o, target);
    } else {
      OtherStates(l, m, TableOf(t, m.meterType), o);
    }
  }

  lemma IskraTurn(l: Line, m: Meter, t: Tables, o: Outside)
    requires BusValid(l.bus) && TablesOk(t) && MeterShape(m, t) && IsIskra(m.meterType) && IskraShape(m)
    ensures Positioned(m, TableOf(t, m.meterType))
    ensures DriverTick(l, m, t, o) ==
            if FastTurn(l, m) then IskraFastTick(l, m, o) else IskraTick(l, m, TableOf(t, m.meterType), o)
    ensures !FastTurn(l, m) && m.state == 1 ==> Scanning(m)
  {
    hide BusValid, TablesOk, Terminated, Count, IskraFastTick, IskraScan, IskraStatus, Elapsed, TableOf, EltakoShape,
         EastronTick, GenericTick, EltakoTick;
  }

  lemma FastBranch(l: Line, m: Meter, o: Outside, target: Target)
    requires BusValid(l.bus)
    requires ValueAt(IskraFastTick(l, m, o).meter.readings.registers, target) != ValueAt(m.readings.registers, target)
    ensures target in FastTargets(m.fast.state) && ResponseOf(l, ReadInput).Good?
  {
    hide BusValid, ResponseOf, StoreBlock, IskraFastTick, ValueAt;
    FastTickRegisters(l, m, o);
    if ResponseOf(l, ReadInput).Good? && target !in FastTargets(m.fast.state) {
      BlockWrites(m, l, FastTargets(m.fast.state), target);
    }
  }

  lemma ScanBranch(l: Line, m: Meter, t: Tables, o: Outside, target: Target)
    requires BusValid(l.bus) && TablesOk(t) && MeterShape(m, t) && Scanning(m) && IsIskra(m.meterType)
    requires target in FAST_VOLTAGES || target in FAST_CURRENTS
    requires ValueAt(DriverTick(l, m, t, o).meter.readings.registers, target) != ValueAt(m.readings.registers, target)
    ensures !ResponseOf(l, ReadInput).Pending? && m.scan.fullPosition < |TableOf(t, m.meterType)|
    ensures TableOf(t, m.meterType)[m.scan.fullPosition].target == target
  {
    hide BusValid, TablesOk, MeterShape, ResponseOf, DriverTick, Data, Computed, StartsOver, TableOf;
    ScanTick(l, m, t, o);
    var stored := Stored(l, m, TableOf(t, m.meterType)[m.scan.fullPosition], o);
    ComputedIs(m, stored);
    FastIsNotComputed(m, target);
    hide ComputedTargets;
  }

  lemma FastIsNotComputed(m: Meter, target: Target)
    requires target in FAST_VOLTAGES || target in FAST_CURRENTS
    ensures target !in ComputedTargets(m)
  {}

  lemma BlockWrites(m: Meter, l: Line, targets: seq<Target>, target: Target)
    requires BusValid(l.bus) && (targets == [] || targets == FAST_VOLTAGES || targets == FAST_CURRENTS) &&
             target !in targets
    ensures ValueAt(StoreBlock(m, l, targets).readings.registers, target) == ValueAt(m.readings.registers, target)
  {
    hide BusValid, StoreBlock, ResponseWord;
    StoreBlockWrites(m, l, targets);
  }

  lemma OtherStates(l: Line, m: Meter, t: Table, o: Outside)
    requires BusValid(l.bus) && Positioned(m, t) && !FastTurn(l, m) && m.state != 1
    ensures IskraTick(l, m, t, o).meter.readings.registers == m.readings.registers
  {
    hide BusValid, Terminated, Count, ResponseOf, Ask, AskFor, Done, Data, FullScanDone, FastTurn, HasError;
  }

  // On every run, whatever the tick of the meter does.
  lemma FastRegisterChanges(s: Station, t: Tables, o: Outside, target: Target)
    requires TablesOk(t) && Reached(s, t) && StationInv(s, t) && IsIskra(s.meter.meterType)
    requires target in FAST_VOLTAGES || target in FAST_CURRENTS
    requires var after := Step(s, MainTick(o), t).meter;
             ValueAt(after.readings.registers, target) != ValueAt(s.meter.readings.registers, target)
    ensures BusValid(s.line.bus)
    ensures var l, m, table := s.line, s.meter, TableOf(t, s.meter.meterType);
            (FastTurn(l, m) && target in FastTargets(m.fast.state) && Answers(l, FastQuestion(m))) ||
            (Scanning(m) && !ResponseOf(l, ReadInput).Pending? &&
             m.scan.fullPosition < |table| && table[m.scan.fullPosition].target == target)
  {
    var l, m := s.line, s.meter;
    hide Inv, Reached, BusValid, TablesOk, MeterTick, DriverTick, ResponseOf, Answers, MeterShape, Agrees,
         FastQuestion, TableOf, Asks;
    InvValid(l);
    ShapeForTick(m, t);
    TickIsDriverTick(l, m, t, o);
    var g :| MeterShape(m.(guard := g), t) && MeterTick(l, m, t, o) == DriverTick(l, m.(guard := g), t, o);
    FastRegisterWritten(l, m.(guard := g), t, o, target);
    hide MeterTick, DriverShape, IskraShape;
    if FastTurn(l, m) && ResponseOf(l, ReadInput).Good? && target in FastTargets(m.fast.state) {
      FastBlocksAreAsked(s, t);
      GoodAnswers(s, t, FastQuestion(m));
    }
  }

  // The Eltako driver copies the block it asked for; after a failed read it handles its old copy again.
  lemma EltakoBlockCaptured(s: Station, t: Tables, o: Outside)
    requires TablesOk(t) && Reached(s, t) && IsEltako(s.meter.meterType) && s.meter.state == 1
    ensures BusValid(s.line.bus) && MeterShape(s.meter, t)
    ensures var l, m, table := s.line, s.meter, TableOf(t, s.meter.meterType);
            var after, r := DriverTick(l, m, t, o).meter, ResponseOf(l, ReadInput);
            && |table| > 0
            && (r.Pending? ==> after == m)
            && (!r.Pending? ==> after.state == 2 && after.eltako.isNew && after.eltako.index == 0)
            && (r.Failed? ==> after.eltako.data == m.eltako.data)
            && (r.Good? ==>
                 && Answers(l, Reading(ReadInput, m.slave, table[0].register, ELTAKO_REGISTERS))
                 && |after.eltako.data| == ELTAKO_REGISTERS && after.eltako.data[..38] == ResponseWords(l, 38))
  {
    hide StationInv, Reached, TablesOk, BusValid, Inv, Answers, ResponseOf, EltakoTable, AfterResponse,
         OnNoteException, ResponseWords, TableOf;
    EveryRun(s, t);
    InvOf(s, t);
    PositionsInTable(s.meter, TableOf(t, s.meter.meterType));
    if ResponseOf(s.line, ReadInput).Good? {
      GoodAnswers(s, t, Reading(ReadInput, s.meter.slave, TableOf(t, s.meter.meterType)[0].register, ELTAKO_REGISTERS));
    }
  }

  // The bus tick that finds these bytes in the hardware FIFO judges a received frame.
  predicate Judges(l: Line, bytes: seq<bv8>) {
    BusValid(l.bus) &&
    var d := OnDrain(l, bytes);
    d.bus.lastLength <= d.bus.rx.size && EventOf(d.bus, Now(d)) in {TooBig, BadChecksum, BadResponse, Answered}
  }

  // A frame is only judged when the line had been quiet for at least five milliseconds since the last byte
  // was received, and it then consists of everything that was received.
  lemma FramesCheckedWhenQuiet(s: Station, t: Tables, bytes: seq<bv8>)
    requires TablesOk(t) && Reached(s, t) && Judges(s.line, bytes)
    ensures var d := OnDrain(s.line, bytes);
            && d.settled && d.quiet >= WAIT_AFTER_READ_MS
            && R.Valid(d.bus.rx) && d.bus.rx.memory[..R.Used(d.bus.rx)] == d.sample == s.line.sample
  {
    hide Reached, TablesOk, DriverShape, Agrees, EventOf;
    EveryRun(s, t);
    CheckedWhenQuiet(s.line, bytes);
  }

  // Over the whole run, the frame-size and checksum counters together never exceed the failures that were
  // reported as timeouts, and each tick of the bus adds to them only together with a timeout.
  lemma FailuresPaired(s: Station, t: Tables, bytes: seq<bv8>)
    requires TablesOk(t) && Reached(s, t)
    ensures s.line.checksums + s.line.tooBig <= s.line.timeouts
    ensures s.line.bus.counters.checksum == s.line.checksums % R.WORD &&
            s.line.bus.counters.frameTooBig == s.line.tooBig % R.WORD
    ensures BusValid(s.line.bus) && s.line.bus.lastLength <= s.line.bus.rx.size
    ensures var after := OnRs485Tick(s.line, bytes);
            && (after.checksums - s.line.checksums) + (after.tooBig - s.line.tooBig) <=
                 after.timeouts - s.line.timeouts <= 1
            && (after.timeouts > s.line.timeouts ==>
                 !s.line.bus.request.timedOut && after.bus.request.timedOut &&
                 after.bus.counters.timeout == (s.line.bus.counters.timeout + 1) % R.WORD)
  {
    hide Reached, TablesOk, DriverShape, Agrees, OnRs485Tick;
    EveryRun(s, t);
    CountersPaired(s.line, bytes);
    Rs485TickKeeps(s.line, bytes);
    TickFlags(s.line, bytes);
  }

  lemma TickFlags(l: Line, bytes: seq<bv8>)
    requires Inv(l)
    ensures BusValid(l.bus) && l.bus.lastLength <= l.bus.rx.size
    ensures var after := OnRs485Tick(l, bytes);
            after.timeouts > l.timeouts ==> !l.bus.request.timedOut && after.bus.request.timedOut
  {
    hide ReceiveAll, Elapsed, ChecksumOk, ResponseOk;
  }

  // The wire is not in the middle of something: a transmission has been handed out, a reception has settled.
  predicate WireDone(b: Bus, now: nat) {
    (b.wire == Transmitting ==> b.txDone) && (b.wire == Receiving ==> Elapsed(now, b.time4Chars, WAIT_AFTER_READ_MS))
  }

  lemma SecondTickExpires(l: Line)
    requires Inv(l) && l.bus.request.state == Waiting && WireDone(l.bus, Now(l))
    requires Elapsed(Now(l), l.bus.request.timeRef, l.bus.timeoutPeriod)
    ensures BusValid(l.bus) && l.bus.lastLength <= l.bus.rx.size
    ensures var first := OnRs485Tick(l, []);
            && BusValid(first.bus) && first.bus.lastLength <= first.bus.rx.size
            && OnRs485Tick(first, []).bus.request.cbInvoke
  {
    hide Crc16.Accepted, IsExceptionOf, ChecksumOk, ResponseOk, Elapsed;
  }

  // No request waits forever: once its timeout has elapsed and the wire is done, two ticks of the bus without
  // new bytes hand a response or a failure to the driver, whatever happened before.
  lemma RequestEnds(s: Station, t: Tables)
    requires TablesOk(t) && Reached(s, t) && s.line.bus.request.state == Waiting && WireDone(s.line.bus, Now(s.line))
    requires Elapsed(Now(s.line), s.line.bus.request.timeRef, s.line.bus.timeoutPeriod)
    ensures StationInv(s, t) && StationInv(Step(s, BusTick([]), t), t)
    ensures Step(Step(s, BusTick([]), t), BusTick([]), t).line.bus.request.cbInvoke
  {
    hide Reached, TablesOk, DriverShape, Agrees, Inv, WireDone, Elapsed, OnRs485Tick, BusValid;
    EveryRun(s, t);
    StepKeeps(s, BusTick([]), t);
    SecondTickExpires(s.line);
  }
}
