/** What the Eltako driver stores: each register gets its own word of the last block that was answered. */
module MeterBlocks {
  import opened Wrappers
  import opened Clock
  import opened Modbus
  import opened ModbusLine
  import opened MeterScan
  import opened MeterDrivers
  import opened Requests
  import opened MeterRuns
  import opened MeterProgress
  import opened MeterReplies
  import Crc16
  import R = Ringbuffers

  // ----- The block that is held -------------------------------------------------------------------

  // Four bytes of a reply.
  function WordAt(reply: seq<bv8>, at: nat): Word
    requires at + 4 <= |reply|
  {
    Word(reply[at], reply[at + 1], reply[at + 2], reply[at + 3])
  }

  // This tick takes a good answer to the block read.
  predicate TakesBlock(s: Station, e: Event)
    requires BusValid(s.line.bus)
  {
    e.MainTick? && IsEltako(s.meter.meterType) && s.meter.state == 1 && ComesThrough(s) &&
    ResponseOf(s.line, ReadInput).Good?
  }

  // The last good answer of a run, as it was received.
  function LastBlock(s: Station, events: seq<Event>, t: Tables, before: seq<bv8>): seq<bv8>
    requires TablesOk(t) && StationInv(s, t)
    decreases |events|
  {
    if events == [] then before else
    InvValid(s.line);
    StepKeeps(s, events[0], t);
    LastBlock(Step(s, events[0], t), events[1..], t, if TakesBlock(s, events[0]) then s.line.validated else before)
  }

  // The driver's copy has the words of the block, as far as it reaches.
  predicate Copied(m: Meter, block: seq<bv8>) {
    |m.eltako.data| == ELTAKO_REGISTERS &&
    forall i: nat :: i < 38 && 7 + 4 * i <= |block| ==> m.eltako.data[i] == WordAt(block, 3 + 4 * i)
  }

  lemma WordsAre(l: Line)
    requires Inv(l) && BusValid(l.bus) && ResponseOf(l, ReadInput).Good?
    ensures forall i: nat :: i < 38 && 7 + 4 * i <= |l.validated| ==>
              ResponseWords(l, 38)[i] == WordAt(l.validated, 3 + 4 * i)
  {
    GoodIsBacked(l, ReadInput);
    hide Inv, BusValid, ValidReply, ResponseOf;
    forall i: nat | i < 38 && 7 + 4 * i <= |l.validated|
      ensures ResponseWords(l, 38)[i] == WordAt(l.validated, 3 + 4 * i)
    {
      WordIs(l, i);
    }
  }

  lemma WordIs(l: Line, i: nat)
    requires BusValid(l.bus) && i < 38 && 7 + 4 * i <= |l.validated| <= |l.bus.rx.memory|
    requires l.bus.rx.memory[..|l.validated|] == l.validated
    ensures ResponseWord(l.bus, i) == WordAt(l.validated, 3 + 4 * i)
  {
    var memory, v := l.bus.rx.memory, l.validated;
    assert forall k :: 0 <= k < |v| ==> memory[k] == memory[..|v|][k];
  }

  lemma RestKept(m: Meter, words: seq<Word>, block: seq<bv8>)
    requires |m.eltako.data| == ELTAKO_REGISTERS && |words| == 38
    requires forall i: nat :: i < 38 && 7 + 4 * i <= |block| ==> words[i] == WordAt(block, 3 + 4 * i)
    ensures Copied(m.(eltako := m.eltako.(data := words + m.eltako.data[38..])), block)
  {}

  // A tick of the Eltako driver copies the block in state 1 and keeps the copy otherwise.
  lemma EltakoCopies(l: Line, m: Meter, t: Table, o: Outside, block: seq<bv8>)
    requires Inv(l) && BusValid(l.bus) && EltakoShape(m, t) && Copied(m, block)
    ensures var taken := m.state == 1 && ResponseOf(l, ReadInput).Good?;
            Copied(EltakoTick(l, m, t, o).meter, if taken then l.validated else block)
  {
    hide Inv, BusValid, EltakoTable, ResponseOf, Terminated, Count, Ask, ResponseWords, OnNoteException, Elapsed;
    if m.state == 1 {
      AfterResponseIs(m, l, true);
      if ResponseOf(l, ReadInput).Good? {
        WordsAre(l);
        RestKept(m, ResponseWords(l, 38), l.validated);
      }
      hide AfterResponse;
    } else if m.state == 2 {
      EltakoTableHasEntry(t);
    }
  }

  // No other driver and no detection touches the copy.
  lemma OthersKeepBlock(l: Line, m: Meter, t: Tables, o: Outside)
    requires BusValid(l.bus) && TablesOk(t) && MeterShape(m, t) && !m.meterType.Unknown? && !IsEltako(m.meterType)
    ensures DriverTick(l, m, t, o).meter.eltako == m.eltako
  {
    hide BusValid, TablesOk, Terminated, Count, HasKind, TableOf, ResponseOf, Data, Done, OnClear, Ask, AskWrite,
         HasError, Elapsed, Misfit, StoreBlock, ScanOn, RegisterSize, Completed, IskraCompleted, NextEntry;
    var n := AfterResponse(m, l, true);
    BlockKeeps(n, l, FAST_VOLTAGES);
    BlockKeeps(n, l, FAST_CURRENTS);
  }

  lemma DetectionKeepsBlock(l: Line, m: Meter)
    requires BusValid(l.bus)
    ensures FindMeterType(l, m).meter.eltako == m.eltako
  {
    hide BusValid, FindStep, OnResetCounters, HasError;
  }

  lemma DriverCopies(l: Line, m: Meter, t: Tables, o: Outside, block: seq<bv8>)
    requires Inv(l) && BusValid(l.bus) && TablesOk(t) && MeterShape(m, t) && !m.meterType.Unknown? && Copied(m, block)
    ensures var taken := IsEltako(m.meterType) && m.state == 1 && ResponseOf(l, ReadInput).Good?;
            Copied(DriverTick(l, m, t, o).meter, if taken then l.validated else block)
  {
    hide Inv, BusValid, TablesOk, EltakoTick, EltakoTable, Terminated, Count, HasKind, TableOf, ResponseOf;
    if IsEltako(m.meterType) {
      EltakoCopies(l, m, TableOf(t, m.meterType), o, block);
    } else {
      OthersKeepBlock(l, m, t, o);
    }
  }

  lemma CopiedStays(m: Meter, n: Meter, block: seq<bv8>)
    requires Copied(m, block) && n.eltako == m.eltako
    ensures Copied(n, block)
  {}

  lemma CopyStep(s: Station, e: Event, t: Tables, block: seq<bv8>)
    requires TablesOk(t) && StationInv(s, t) && Copied(s.meter, block)
    ensures BusValid(s.line.bus)
    ensures Copied(Step(s, e, t).meter, if TakesBlock(s, e) then s.line.validated else block)
  {
    hide Inv, DriverShape, Agrees, BusValid, TablesOk, MeterShape, OnRs485Tick, OnRxInterrupt, OnTxInterrupt,
         FindMeterType, DriverTick, Awake, Watched, ResponseOf, Copied;
    var l, m := s.line, s.meter;
    StationLength(s, t);
    ShapeForTick(m, t);
    if e.MainTick? && !m.guard.stuck && !m.meterType.Unsupported? {
      var (awake, guard) := Awake(m.guard, Now(l));
      if awake && m.meterType.Unknown? {
        DetectionKeepsBlock(l, m.(guard := guard));
        CopiedStays(m, Step(s, e, t).meter, block);
      } else if awake {
        var n := m.(guard := Watched(guard, m.state, Now(l)));
        GuardShape(m, n.guard, t);
        CopiedStays(m, n, block);
        DriverCopies(l, n, t, e.o, block);
      } else {
        CopiedStays(m, Step(s, e, t).meter, block);
      }
    }
  }

  lemma {:induction false} CopyRuns(s: Station, events: seq<Event>, t: Tables, block: seq<bv8>)
    requires TablesOk(t) && StationInv(s, t) && Copied(s.meter, block)
    ensures Copied(Run(s, events, t).meter, LastBlock(s, events, t, block))
    decreases |events|
  {
    hide StationInv, TablesOk, Step, Copied, TakesBlock, BusValid;
    if events != [] {
      StationLength(s, t);
      StepKeeps(s, events[0], t);
      CopyStep(s, events[0], t, block);
      CopyRuns(Step(s, events[0], t), events[1..], t,
               if TakesBlock(s, events[0]) then s.line.validated else block);
    }
  }

  // ----- What is stored from it -------------------------------------------------------------------

  // The word that the driver takes is the register's own in two kinds of blocks.
  predicate Fits(first: nat, register: nat) {
    (first == 1 && register % 2 == 1) || (first == 2 && register % 2 == 0 && register > 0)
  }

  lemma WordOfRegister(first: nat, register: nat)
    requires first > 0 && register > 0
    ensures register >= first && (register - first) % 2 == 0 && (register - first) / 2 == (register - 1) / 2 <==>
            Fits(first, register)
  {}

  function StoredAs(m: Meter, d: Definition, word: Word): Registers {
    m.readings.registers[d.target := Converted(word, d.dataType)]
  }

  // The tick that handles an entry of the table, as a run finds it.
  predicate Handles(s: Station, t: Tables) {
    IsEltako(s.meter.meterType) && s.meter.state == 2 && ComesThrough(s) &&
    s.meter.eltako.index < Count(TableOf(t, s.meter.meterType))
  }

  lemma HandleIs(l: Line, m: Meter, t: Table, o: Outside)
    requires BusValid(l.bus) && EltakoShape(m, t) && m.state == 2 && m.eltako.isNew && m.eltako.index < Count(t)
    ensures m.eltako.index < |t| && |t| > 0 && t[0].register > 0
    ensures var d := t[m.eltako.index];
            && 0 < d.register && (d.register - 1) / 2 < ELTAKO_REGISTERS
            && EltakoTick(l, m, t, o).line == l && EltakoTick(l, m, t, o).meter.eltako.index == m.eltako.index + 1
            && EltakoTick(l, m, t, o).meter.readings.registers == StoredAs(m, d, m.eltako.data[(d.register - 1) / 2])
  {
    hide BusValid;
    EltakoEntry(t, m.eltako.index);
    EltakoEntry(t, 0);
  }

  lemma StepHandles(s: Station, t: Tables, o: Outside)
    requires TablesOk(t) && StationInv(s, t) && Handles(s, t)
    ensures var m, table := s.meter, TableOf(t, s.meter.meterType);
            && m.eltako.index < |table| && |table| > 0 && table[0].register > 0
            && |m.eltako.data| == ELTAKO_REGISTERS
            && var d, after := table[m.eltako.index], Step(s, MainTick(o), t);
               && 0 < d.register && (d.register - 1) / 2 < ELTAKO_REGISTERS
               && after.line == s.line && after.meter.eltako.index == m.eltako.index + 1
               && after.meter.readings.registers == StoredAs(m, d, m.eltako.data[(d.register - 1) / 2])
  {
    hide Inv, Agrees, BusValid, TablesOk, EltakoTick, EltakoTable, Terminated, Count, Awake, Watched, StoredAs, TableOf;
    var l, m := s.line, s.meter;
    StationLength(s, t);
    ShapeForTick(m, t);
    var n := m.(guard := Watched(Awake(m.guard, Now(l)).1, m.state, Now(l)));
    HandleIs(l, n, TableOf(t, m.meterType), o);
    SameStored(m, n.guard, TableOf(t, m.meterType));
  }

  lemma SameStored(m: Meter, g: Guard, t: Table)
    ensures forall d: Definition, word: Word :: StoredAs(m.(guard := g), d, word) == StoredAs(m, d, word)
  {}

  // On every run from boot: the tick that handles the entry of a register stores for it, converted by the entry's
  // type, the very four bytes that answer this register in the last good answer, where they stand if the first
  // register asked for is answered from the third byte on; and no other register changes. That needs the register to
  // fit the block, to be among the 38 words that are copied, and the answer to reach that far.
  lemma EltakoStoresItsWord(bus: Bus, clock: nat, events: seq<Event>, t: Tables, o: Outside)
    requires TablesOk(t) && Boots(bus) && bus.mode == Master && bus.time4Chars == Stamp(clock)
    ensures StationInv(Station(BootLine(bus, clock), BootMeter(Stamp(clock))), t)
    ensures var boot := Station(BootLine(bus, clock), BootMeter(Stamp(clock)));
            var s, block := Run(boot, events, t), LastBlock(boot, events, t, []);
            var m, table := s.meter, TableOf(t, s.meter.meterType);
            StationInv(s, t) &&
            (Handles(s, t) ==>
               && m.eltako.index < |table|
               && var d, first := table[m.eltako.index], table[0].register;
                  var at := 3 + 2 * (d.register - first);
                  Fits(first, d.register) && d.register - first < 76 && at + 4 <= |block| ==>
                    && at >= 3
                    && Step(s, MainTick(o), t).meter.readings.registers == StoredAs(m, d, WordAt(block, at)))
  {
    hide StationInv, TablesOk, Run, Boots, Step, Copied, BootLine, BootMeter, Handles, StoredAs, TableOf;
    BootStation(bus, clock, t);
    var boot := Station(BootLine(bus, clock), BootMeter(Stamp(clock)));
    BootCopies(clock);
    RunKeeps(boot, events, t);
    CopyRuns(boot, events, t, []);
    var s, block := Run(boot, events, t), LastBlock(boot, events, t, []);
    if Handles(s, t) {
      var m, table := s.meter, TableOf(t, s.meter.meterType);
      StepHandles(s, t, o);
      var d, first := table[m.eltako.index], table[0].register;
      WordOfRegister(first, d.register);
      var i := (d.register - 1) / 2;
      if Fits(first, d.register) && d.register - first < 76 && 7 + 4 * i <= |block| {
        CopiedWord(m, block, i);
      }
    }
  }

  lemma CopiedWord(m: Meter, block: seq<bv8>, i: nat)
    requires Copied(m, block) && i < 38 && 7 + 4 * i <= |block|
    ensures |m.eltako.data| == ELTAKO_REGISTERS && m.eltako.data[i] == WordAt(block, 3 + 4 * i)
  {}

  lemma BootCopies(clock: nat)
    ensures Copied(BootMeter(Stamp(clock)), [])
  {}

  // The driver stores the word that belongs to an entry's register, whatever the block holds, if and only if the
  // register fits.
  lemma {:induction false} EltakoWordFits(l: Line, m: Meter, t: Table, o: Outside)
    requires BusValid(l.bus) && EltakoShape(m, t) && m.state == 2 && m.eltako.isNew && m.eltako.index < Count(t)
    ensures m.eltako.index < |t| && |t| > 0
    ensures var d, first := t[m.eltako.index], t[0].register;
            (d.register >= first && (d.register - first) % 2 == 0 &&
             forall data: seq<Word> :: |data| == ELTAKO_REGISTERS ==>
               StoresWord(l, m.(eltako := m.eltako.(data := data)), t, o, d, (d.register - first) / 2)) <==>
            Fits(first, d.register)
  {
    hide BusValid, EltakoTable, Terminated, Count, EltakoTick, Fits, StoredAs;
    HandleIs(l, m, t, o);
    var d, first := t[m.eltako.index], t[0].register;
    WordOfRegister(first, d.register);
    var own := (d.register - 1) / 2;
    if d.register >= first && (d.register - first) % 2 == 0 {
      var k := (d.register - first) / 2;
      if k == own {
        forall data: seq<Word> | |data| == ELTAKO_REGISTERS
          ensures StoresWord(l, m.(eltako := m.eltako.(data := data)), t, o, d, k)
        {
          HandleIs(l, m.(eltako := m.eltako.(data := data)), t, o);
        }
      } else {
        OtherWord(l, m, t, o, k);
      }
    }
  }

  // Another word shows when only the driver's own is set.
  lemma OtherWord(l: Line, m: Meter, t: Table, o: Outside, k: nat)
    requires BusValid(l.bus) && EltakoShape(m, t) && m.state == 2 && m.eltako.isNew && m.eltako.index < Count(t)
    requires m.eltako.index < |t| && k != (t[m.eltako.index].register - 1) / 2
    ensures exists data: seq<Word> ::
              |data| == ELTAKO_REGISTERS &&
              !StoresWord(l, m.(eltako := m.eltako.(data := data)), t, o, t[m.eltako.index], k)
  {
    hide BusValid, EltakoTable, Terminated, Count, EltakoTick, StoredAs;
    HandleIs(l, m, t, o);
    var d := t[m.eltako.index];
    var data := seq(ELTAKO_REGISTERS, i => Word(0, 0, 0, 0))[(d.register - 1) / 2 := Word(1, 1, 1, 1)];
    var n := m.(eltako := m.eltako.(data := data));
    HandleIs(l, n, t, o);
    StoredDiffer(n, d, Word(1, 1, 1, 1), Word(0, 0, 0, 0));
    assert !StoresWord(l, n, t, o, d, k);
  }

  lemma StoredDiffer(m: Meter, d: Definition, x: Word, y: Word)
    requires x != y
    ensures StoredAs(m, d, x) != StoredAs(m, d, y)
  {
    assert StoredAs(m, d, x)[d.target] != StoredAs(m, d, y)[d.target];
  }

  // The tick stores this word of the copy for the entry, and changes no other register.
  predicate StoresWord(l: Line, m: Meter, t: Table, o: Outside, d: Definition, k: nat)
    requires BusValid(l.bus) && EltakoShape(m, t) && m.state == 2
  {
    k < |m.eltako.data| && EltakoTick(l, m, t, o).meter.readings.registers == StoredAs(m, d, m.eltako.data[k])
  }
}
