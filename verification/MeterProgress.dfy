/** What goes on: every request comes to an end though nothing more is received, and when the Iskra full scan
    gets its turn. */
module MeterProgress {
  import opened Wrappers
  import opened Clock
  import opened Modbus
  import opened ModbusLine
  import opened MeterScan
  import opened MeterDrivers
  import opened Requests
  import opened MeterRuns
  import Crc16
  import R = Ringbuffers

  // ----- Time ------------------------------------------------------------------------------------------

  // How long until the wrapping test reports the period as elapsed.
  function Wait(clock: nat, from: nat, period: nat): (ms: nat)
    ensures ms <= period
  {
    var passed := (Stamp(clock) - from) % WRAP;
    if passed >= period then 0 else period - passed
  }

  lemma Later(clock: nat, from: nat, ms: nat)
    ensures (Stamp(clock + ms) - from) % WRAP == ((Stamp(clock) - from) % WRAP + ms) % WRAP
  {
    var a, b := clock / WRAP, (clock + ms) / WRAP;
    var c := (Stamp(clock) - from) / WRAP;
    assert clock == a * WRAP + Stamp(clock) && clock + ms == b * WRAP + Stamp(clock + ms);
    var p := (Stamp(clock) - from) % WRAP;
    assert Stamp(clock) - from == c * WRAP + p;
    SameResidue(Stamp(clock + ms) - from, p + ms, a + c - b);
  }

  lemma SameResidue(x: int, y: int, k: int)
    requires x == y + k * WRAP
    ensures x % WRAP == y % WRAP
  {}

  lemma WaitElapses(clock: nat, from: nat, period: nat)
    requires period < WRAP
    ensures Elapsed(Stamp(clock + Wait(clock, from, period)), from, period)
  {
    Later(clock, from, Wait(clock, from, period));
  }

  // Time passes and nothing is received: only ticks of bus and meter, and bytes clocked out.
  predicate Silent(events: seq<Event>) {
    forall i :: 0 <= i < |events| ==> !events[i].RxIrq? && (events[i].BusTick? ==> events[i].bytes == [])
  }

  function TimeOf(events: seq<Event>): nat {
    if events == [] then 0 else (if events[0].Pass? then events[0].ms else 0) + TimeOf(events[1..])
  }

  lemma {:induction false} TimeAdds(xs: seq<Event>, ys: seq<Event>)
    ensures TimeOf(xs + ys) == TimeOf(xs) + TimeOf(ys)
  {
    if xs == [] {
      assert xs + ys == ys;
    } else {
      assert (xs + ys)[1..] == xs[1..] + ys;
      TimeAdds(xs[1..], ys);
    }
  }

  lemma {:induction false} RunAppend(s: Station, xs: seq<Event>, ys: seq<Event>, t: Tables)
    requires TablesOk(t) && StationInv(s, t)
    ensures StationInv(Run(s, xs, t), t) && Run(s, xs + ys, t) == Run(Run(s, xs, t), ys, t)
    decreases |xs|
  {
    hide StationInv, TablesOk, Step;
    if xs == [] {
      assert xs + ys == ys;
    } else {
      assert (xs + ys)[0] == xs[0] && (xs + ys)[1..] == xs[1..] + ys;
      StepKeeps(s, xs[0], t);
      RunAppend(Step(s, xs[0], t), xs[1..], ys, t);
    }
  }

  // Two events.
  lemma RunTwo(s: Station, e: Event, f: Event, t: Tables)
    requires TablesOk(t) && StationInv(s, t)
    ensures StationInv(Step(s, e, t), t) && StationInv(Step(Step(s, e, t), f, t), t)
    ensures Run(s, [e, f], t) == Step(Step(s, e, t), f, t)
  {
    hide StationInv, TablesOk, Step;
    StepKeeps(s, e, t);
    StepKeeps(Step(s, e, t), f, t);
    assert [e, f][1..] == [f] && [f][1..] == [];
    assert Run(s, [e, f], t) == Run(Step(s, e, t), [f], t);
    assert Run(Step(s, e, t), [f], t) == Run(Step(Step(s, e, t), f, t), [], t);
  }

  lemma TimeOfTwo(e: Event, f: Event)
    ensures TimeOf([e, f]) == (if e.Pass? then e.ms else 0) + (if f.Pass? then f.ms else 0)
  {
    assert [e, f][1..] == [f] && [f][1..] == [];
    assert TimeOf([f]) == (if f.Pass? then f.ms else 0) + TimeOf([]);
  }

  // ----- The bus ends a request --------------------------------------------------------------------------

  // What the wire is busy with ends: the frame is clocked out, the silence after the last byte has passed.
  function WireEvents(l: Line): seq<Event>
    requires R.Valid(l.bus.tx)
  {
    match l.bus.wire
    case Transmitting => [TxIrq(R.Used(l.bus.tx) + 1), BusTick([])]
    case Receiving => [Pass(Wait(l.clock, l.bus.time4Chars, WAIT_AFTER_READ_MS)), BusTick([])]
    case Idle => []
  }

  // The request that is waited for and its time stamp.
  predicate SameRequest(l: Line, after: Line) {
    after.bus.request.state == l.bus.request.state && after.bus.request.timeRef == l.bus.request.timeRef &&
    after.bus.timeoutPeriod == l.bus.timeoutPeriod && after.bus.mode == l.bus.mode
  }

  lemma ClockedOut(l: Line)
    requires Inv(l) && l.bus.wire == Transmitting
    ensures BusValid(l.bus)
    ensures var sent := OnTxInterrupt(l, R.Used(l.bus.tx) + 1);
            && BusValid(sent.bus) && sent.bus.lastLength <= sent.bus.rx.size
            && var after := OnRs485Tick(sent, []);
               after.bus.wire == Idle && SameRequest(l, after) && after.clock == l.clock
  {
    hide Crc16.Accepted, IsExceptionOf, R.Items;
  }

  lemma Quietens(l: Line)
    requires Inv(l) && l.bus.wire == Receiving
    ensures var later := Advance(l, Wait(l.clock, l.bus.time4Chars, WAIT_AFTER_READ_MS));
            && BusValid(later.bus) && later.bus.lastLength <= later.bus.rx.size
            && var after := OnRs485Tick(later, []);
               after.bus.wire == Idle && SameRequest(l, after) && after.clock == later.clock
  {
    WaitElapses(l.clock, l.bus.time4Chars, WAIT_AFTER_READ_MS);
    hide Crc16.Accepted, IsExceptionOf, Elapsed, Wait;
  }

  lemma {:induction false} WireIdles(s: Station, t: Tables) returns (after: Station)
    requires TablesOk(t) && StationInv(s, t)
    ensures BusValid(s.line.bus) && StationInv(after, t) && after == Run(s, WireEvents(s.line), t)
    ensures after.line.bus.wire == Idle && SameRequest(s.line, after.line) && after.meter == s.meter
    ensures after.line.clock == s.line.clock + TimeOf(WireEvents(s.line)) <= s.line.clock + WAIT_AFTER_READ_MS
    ensures Silent(WireEvents(s.line))
  {
    var l := s.line;
    hide Inv, DriverShape, Agrees, TablesOk, OnRs485Tick, OnTxInterrupt, BusValid, SameRequest, Wait, MeterTick;
    InvLength(l);
    match l.bus.wire
    case Transmitting =>
      RunTwo(s, TxIrq(R.Used(l.bus.tx) + 1), BusTick([]), t);
      TimeOfTwo(TxIrq(R.Used(l.bus.tx) + 1), BusTick([]));
      ClockedOut(l);
      after := Run(s, WireEvents(l), t);
    case Receiving =>
      RunTwo(s, Pass(Wait(l.clock, l.bus.time4Chars, WAIT_AFTER_READ_MS)), BusTick([]), t);
      TimeOfTwo(Pass(Wait(l.clock, l.bus.time4Chars, WAIT_AFTER_READ_MS)), BusTick([]));
      Quietens(l);
      after := Run(s, WireEvents(l), t);
    case Idle =>
      after := s;
      Unchanged(l);
  }

  lemma Unchanged(l: Line)
    ensures SameRequest(l, l)
  {}

  lemma Expires(l: Line)
    requires Inv(l) && l.bus.wire == Idle && l.bus.request.state == Waiting && l.bus.timeoutPeriod < WRAP
    ensures var later := Advance(l, Wait(l.clock, l.bus.request.timeRef, l.bus.timeoutPeriod));
            && BusValid(later.bus) && later.bus.lastLength <= later.bus.rx.size
            && var after := OnRs485Tick(later, []);
               after.bus.request.cbInvoke && after.bus.request.state == Waiting && after.clock == later.clock
  {
    WaitElapses(l.clock, l.bus.request.timeRef, l.bus.timeoutPeriod);
    hide Crc16.Accepted, IsExceptionOf, Elapsed, Wait, ChecksumOk, ResponseOk;
  }

  function ExpiryEvents(l: Line): seq<Event> {
    [Pass(Wait(l.clock, l.bus.request.timeRef, l.bus.timeoutPeriod)), BusTick([])]
  }

  lemma IdleAnswers(s: Station, t: Tables)
    requires TablesOk(t) && StationInv(s, t) && s.line.bus.request.state == Waiting && s.line.bus.wire == Idle
    requires s.line.bus.timeoutPeriod < WRAP
    ensures var events := ExpiryEvents(s.line);
            var after := Run(s, events, t);
            && after.meter == s.meter && after.line.clock == s.line.clock + TimeOf(events)
            && after.line.bus.request.state == Waiting && after.line.bus.request.cbInvoke
            && TimeOf(events) <= s.line.bus.timeoutPeriod
  {
    hide Inv, DriverShape, Agrees, TablesOk, OnRs485Tick, BusValid, Wait, MeterTick, Run, TimeOf;
    var l := s.line;
    InvLength(l);
    Expires(l);
    var wait := Wait(l.clock, l.bus.request.timeRef, l.bus.timeoutPeriod);
    RunTwo(s, Pass(wait), BusTick([]), t);
    TimeOfTwo(Pass(wait), BusTick([]));
  }

  // Within the timeout and the five milliseconds of a settling line, a response or a failure is handed over.
  lemma {:induction false} BusAnswers(s: Station, t: Tables) returns (events: seq<Event>)
    requires TablesOk(t) && StationInv(s, t) && s.line.bus.request.state == Waiting
    requires s.line.bus.timeoutPeriod < WRAP
    ensures Silent(events) && TimeOf(events) <= s.line.bus.timeoutPeriod + WAIT_AFTER_READ_MS
    ensures var after := Run(s, events, t);
            && StationInv(after, t) && after.meter == s.meter && after.line.clock == s.line.clock + TimeOf(events)
            && after.line.bus.request.state == Waiting && after.line.bus.request.cbInvoke
  {
    hide StationInv, TablesOk, WireEvents, ExpiryEvents, TimeOf, Run;
    var idle := WireIdles(s, t);
    IdleAnswers(idle, t);
    var first, second := WireEvents(s.line), ExpiryEvents(idle.line);
    events := first + second;
    RunAppend(s, first, second, t);
    RunKeeps(s, events, t);
    TimeAdds(first, second);
    SilentExpiry(idle.line);
  }

  lemma SilentExpiry(l: Line)
    ensures Silent(ExpiryEvents(l))
  {}

  // ----- A tick of the meter that runs ---------------------------------------------------------------------

  // How long a tick may be held back by the waits after an error and after start-up.
  function Held(g: Guard): nat { (if g.errorWait != 0 then 500 else 0) + (if g.firstTick != 0 then 2500 else 0) }

  // For how long the watchdog has seen this state.
  function WatchedFor(m: Meter, now: nat): nat {
    if m.guard.lastState != m.state then 0 else (now - m.guard.timeout) % WRAP
  }

  // Two ticks at the right times: the first ends the wait after an error, the second that after start-up.
  function WaitAwake(g: Guard, clock: nat): nat {
    if g.errorWait != 0 then Wait(clock, g.errorWait, 500)
    else if g.firstTick != 0 then Wait(clock, g.firstTick, 2500)
    else 0
  }

  lemma Wakes(g: Guard, clock: nat)
    ensures WaitAwake(g, clock) <= Held(g)
    ensures var (awake, n) := Awake(g, Stamp(clock + WaitAwake(g, clock)));
            && n == g.(errorWait := 0, firstTick := n.firstTick)
            && (awake ==> n.firstTick == 0)
            && (!awake ==> g.errorWait != 0 && WaitAwake(g, clock) <= 500 && n.firstTick == g.firstTick != 0)
  {
    if g.errorWait != 0 {
      WaitElapses(clock, g.errorWait, 500);
    } else if g.firstTick != 0 {
      WaitElapses(clock, g.firstTick, 2500);
    }
    hide Elapsed, Wait;
  }

  // What a tick that is not held back does: the watchdog stops it, or detection or driver run.
  function Awakened(l: Line, m: Meter, t: Tables, o: Outside): Station
    requires BusValid(l.bus) && TablesOk(t) && MeterShape(m, t)
  {
    if m.meterType.Unknown? then FindMeterType(l, m) else
    var n := m.(guard := Watched(m.guard, m.state, Now(l)));
    if n.guard.stuck then Station(l, n) else DriverTick(l, n, t, o)
  }

  lemma TickIs(l: Line, m: Meter, t: Tables, o: Outside)
    requires BusValid(l.bus) && TablesOk(t) && MeterShape(m, t) && !m.guard.stuck && !m.meterType.Unsupported?
    ensures var (awake, g) := Awake(m.guard, Now(l));
            MeterShape(m.(guard := g), t) &&
            MeterTick(l, m, t, o) == if awake then Awakened(l, m.(guard := g), t, o) else Station(l, m.(guard := g))
  {
    hide BusValid, TablesOk, DriverTick, FindMeterType, Awake, Watched, EltakoTable, Terminated, Count, TableOf;
  }

  lemma StuckOrTicks(s: Station, ms: nat, t: Tables, o: Outside)
    requires TablesOk(t) && StationInv(s, t) && !s.meter.guard.stuck && !s.meter.meterType.Unsupported?
    ensures var l, m := Advance(s.line, ms), s.meter;
            var (awake, g) := Awake(m.guard, Now(l));
            && BusValid(l.bus) && MeterShape(m.(guard := g), t)
            && StationInv(Step(s, Pass(ms), t), t)
            && Run(s, [Pass(ms), MainTick(o)], t) ==
                 if awake then Awakened(l, m.(guard := g), t, o) else Station(l, m.(guard := g))
  {
    hide Inv, DriverShape, Agrees, TablesOk, BusValid, MeterShape, MeterTick, Awake, Awakened, OnRs485Tick, Run;
    InvValid(s.line);
    ShapeForTick(s.meter, t);
    RunTwo(s, Pass(ms), MainTick(o), t);
    TickIs(Advance(s.line, ms), s.meter, t, o);
  }

  // The station at the instant of its next tick that runs.
  function AtTick(s: Station, ms: nat): Station {
    Station(Advance(s.line, ms), s.meter.(guard := s.meter.guard.(errorWait := 0, firstTick := 0)))
  }

  lemma AtTickKeeps(s: Station, ms: nat, t: Tables)
    requires StationInv(s, t)
    ensures StationInv(AtTick(s, ms), t) && BusValid(s.line.bus) && MeterShape(AtTick(s, ms).meter, t)
  {
    hide Inv, DriverShape, Asks, TablesOk, AgreesWith, BusValid, MeterShape;
    InvValid(s.line);
    AdvanceKeeps(s.line, ms);
    AdvanceAgrees(s, ms, t);
    GuardKeeps(Advance(s.line, ms), s.meter, AtTick(s, ms).meter.guard, t);
    ShapeForTick(AtTick(s, ms).meter, t);
  }

  lemma AdvanceAgrees(s: Station, ms: nat, t: Tables)
    requires Agrees(s.line, s.meter, t)
    ensures Agrees(Advance(s.line, ms), s.meter, t)
  {
    hide Asks, FrameAsks;
  }

  lemma {:induction false} RunsATick(s: Station, t: Tables, o: Outside) returns (events: seq<Event>)
    requires TablesOk(t) && StationInv(s, t) && !s.meter.guard.stuck && !s.meter.meterType.Unsupported?
    ensures Silent(events) && TimeOf(events) <= Held(s.meter.guard)
    ensures var at := AtTick(s, TimeOf(events));
            && StationInv(at, t) && BusValid(at.line.bus) && MeterShape(at.meter, t)
            && Run(s, events, t) == Awakened(at.line, at.meter, t, o)
  {
    hide StationInv, TablesOk, BusValid, MeterShape, Awakened, Run, Awake, WaitAwake, TimeOf;
    var g, wait := s.meter.guard, WaitAwake(s.meter.guard, s.line.clock);
    events := [Pass(wait), MainTick(o)];
    Wakes(g, s.line.clock);
    StuckOrTicks(s, wait, t, o);
    TimeOfTwo(Pass(wait), MainTick(o));
    if !Awake(g, Stamp(s.line.clock + wait)).0 {
      var next := Run(s, events, t);
      RunKeeps(s, events, t);
      var rest := WaitAwake(next.meter.guard, next.line.clock);
      Wakes(next.meter.guard, next.line.clock);
      StuckOrTicks(next, rest, t, o);
      TimeOfTwo(Pass(rest), MainTick(o));
      TimeAdds(events, [Pass(rest), MainTick(o)]);
      RunAppend(s, events, [Pass(rest), MainTick(o)], t);
      events := events + [Pass(rest), MainTick(o)];
    }
    AtTickKeeps(s, TimeOf(events), t);
  }

  // ----- Every request ends --------------------------------------------------------------------------------

  predicate AnswerHeld(s: Station) { s.line.bus.request.state == Waiting && s.line.bus.request.cbInvoke }

  predicate Finished(s: Station) { s.line.bus.request.state == Ready }

  predicate AtEase(g: Guard) { g.errorWait == 0 && g.firstTick == 0 && !g.stuck }

  // What the watchdog has noted after a tick that it let pass.
  lemma WatchedIs(g: Guard, state: nat, now: nat)
    requires AtEase(g)
    ensures var w := Watched(g, state, now);
            && w == g.(timeout := w.timeout, lastState := state, stuck := w.stuck)
            && (w.stuck <==> g.lastState == state && (now - g.timeout) % WRAP >= 60000)
            && (!w.stuck ==> (now - w.timeout) % WRAP < 60000)
  {}

  lemma EltakoGuard(l: Line, m: Meter, t: Table, o: Outside)
    requires BusValid(l.bus) && EltakoShape(m, t) && (m.state == 1 || m.state == 2)
    ensures var n := EltakoTick(l, m, t, o).meter;
            && n.meterType == m.meterType && n.guard == m.guard.(errorWait := n.guard.errorWait)
            && (m.state == 2 ==> n.guard == m.guard)
  {
    hide BusValid, EltakoTable, Count, ResponseWords, HasError, Terminated;
    if m.state == 2 {
      EltakoTableHasEntry(t);
    }
  }

  // Eltako has copied its block and handles it value by value.
  predicate Handling(s: Station, t: Tables) {
    IsEltako(s.meter.meterType) && s.meter.state == 2 && AnswerHeld(s) &&
    TicksLeft(s.meter, TableOf(t, s.meter.meterType)) > 0
  }

  lemma AwakenedFinishes(s: Station, t: Tables, o: Outside)
    requires TablesOk(t) && StationInv(s, t) && AnswerHeld(s) && AtEase(s.meter.guard)
    ensures BusValid(s.line.bus) && MeterShape(s.meter, t)
    ensures var m, after := s.meter, Awakened(s.line, s.meter, t, o);
            || (after.meter.guard.stuck && WatchedFor(m, Now(s.line)) >= 60000)
            || Finished(after)
            || (Handling(after, t) && !after.meter.guard.stuck && after.line.clock == s.line.clock &&
                after.meter.meterType == m.meterType &&
                TicksLeft(after.meter, TableOf(t, m.meterType)) < TicksLeft(m, TableOf(t, m.meterType)) &&
                after.meter.guard.firstTick == 0 && after.meter.guard.lastState == m.state &&
                (m.state == 1 || (m.state == 2 && Held(after.meter.guard) == 0 &&
                                  WatchedFor(after.meter, Now(s.line)) < 60000)))
  {
    hide Inv, BusValid, DriverShape, Agrees, TablesOk, MeterShape, DriverTick, FindMeterType, Watched, TableOf,
         TicksLeft;
    var l, m := s.line, s.meter;
    InvValid(l);
    ShapeForTick(m, t);
    if m.meterType.Unknown? {
      ResponseIsTakenInv(s, t, o);
    } else {
      var g := Watched(m.guard, m.state, Now(l));
      WatchedIs(m.guard, m.state, Now(l));
      GuardKeeps(l, m, g, t);
      var n := m.(guard := g);
      ShapeForTick(n, t);
      if !g.stuck {
        ResponseIsTakenInv(Station(l, n), t, o);
        if IsEltako(m.meterType) {
          EltakoStates(s, t);
        }
        EltakoTicks(l, n, t, o);
        TicksLeftIs(m, g, TableOf(t, m.meterType));
      }
    }
  }

  lemma TicksLeftIs(m: Meter, g: Guard, t: Table)
    ensures TicksLeft(m.(guard := g), t) == TicksLeft(m, t)
  {}

  lemma EltakoStates(s: Station, t: Tables)
    requires StationInv(s, t) && AnswerHeld(s) && IsEltako(s.meter.meterType)
    ensures s.meter.state == 1 || s.meter.state == 2
  {
    hide Inv, MeterShape, FrameAsks;
  }

  lemma EltakoTicks(l: Line, m: Meter, t: Tables, o: Outside)
    requires BusValid(l.bus) && TablesOk(t) && MeterShape(m, t)
    ensures DriverTick(l, m, t, o).line.clock == l.clock
    ensures IsEltako(m.meterType) && (m.state == 1 || m.state == 2) ==>
              var n := DriverTick(l, m, t, o).meter;
              && n.meterType == m.meterType && n.guard == m.guard.(errorWait := n.guard.errorWait)
              && (m.state == 2 ==> n.guard == m.guard)
  {
    hide BusValid, EltakoTable, TableOf, EltakoTick, Terminated, Count;
    if IsEltako(m.meterType) && (m.state == 1 || m.state == 2) {
      EltakoGuard(l, m, TableOf(t, m.meterType), o);
    }
  }

  // The watchdog has stopped the ticks, which takes a minute in one state.
  predicate Stopped(after: Station, watched: nat, time: nat) { after.meter.guard.stuck && watched + time >= 60000 }

  lemma {:induction false} HandlingFinishes(s: Station, t: Tables, o: Outside) returns (events: seq<Event>)
    requires TablesOk(t) && StationInv(s, t) && Handling(s, t) && !s.meter.guard.stuck && s.meter.guard.firstTick == 0
    ensures Silent(events) && TimeOf(events) <= Held(s.meter.guard)
    ensures var after := Run(s, events, t);
            && StationInv(after, t)
            && (Finished(after) || Stopped(after, WatchedFor(s.meter, Now(s.line)), Held(s.meter.guard)))
    decreases TicksLeft(s.meter, TableOf(t, s.meter.meterType))
  {
    hide StationInv, TablesOk, BusValid, MeterShape, Awakened, Run, Step, TimeOf, TableOf, TicksLeft, Elapsed;
    events := RunsATick(s, t, o);
    var at, after := AtTick(s, TimeOf(events)), Run(s, events, t);
    RunKeeps(s, events, t);
    WatchedLonger(s, TimeOf(events));
    AtTickHolds(s, TimeOf(events), t);
    AwakenedFinishes(at, t, o);
    if !after.meter.guard.stuck && !Finished(after) {
      var more := HandlingFinishes(after, t, o);
      RunAppend(s, events, more, t);
      TimeAdds(events, more);
      events := events + more;
    }
  }

  lemma AtTickHolds(s: Station, ms: nat, t: Tables)
    ensures var at := AtTick(s, ms);
            && (AnswerHeld(at) <==> AnswerHeld(s)) && (Handling(at, t) <==> Handling(s, t))
            && (!s.meter.guard.stuck ==> AtEase(at.meter.guard))
            && TicksLeft(at.meter, TableOf(t, at.meter.meterType)) == TicksLeft(s.meter, TableOf(t, s.meter.meterType))
  {}

  lemma WatchedLonger(s: Station, ms: nat)
    ensures var at := AtTick(s, ms);
            WatchedFor(at.meter, Now(at.line)) <= WatchedFor(s.meter, Now(s.line)) + ms
  {
    Later(s.line.clock, s.meter.guard.timeout, ms);
    ResidueAtMost((Stamp(s.line.clock) - s.meter.guard.timeout) % WRAP + ms);
  }

  lemma ResidueAtMost(x: nat)
    ensures x % WRAP <= x
  {}

  // With an answer handed over the request ends; only Eltako takes another wait after an error before it does.
  lemma {:induction false} AnswerFinishes(s: Station, t: Tables, o: Outside) returns (events: seq<Event>)
    requires TablesOk(t) && StationInv(s, t) && AnswerHeld(s) && !s.meter.guard.stuck
    ensures Silent(events) && TimeOf(events) <= Held(s.meter.guard) + 500
    ensures var after := Run(s, events, t);
            && StationInv(after, t)
            && (Finished(after) || Stopped(after, WatchedFor(s.meter, Now(s.line)), Held(s.meter.guard)))
  {
    hide StationInv, TablesOk, BusValid, MeterShape, Awakened, Run, Step, TimeOf, TableOf, TicksLeft, Elapsed;
    Supported(s, t);
    events := RunsATick(s, t, o);
    var at, after := AtTick(s, TimeOf(events)), Run(s, events, t);
    RunKeeps(s, events, t);
    WatchedLonger(s, TimeOf(events));
    AtTickHolds(s, TimeOf(events), t);
    AwakenedFinishes(at, t, o);
    if !after.meter.guard.stuck && !Finished(after) {
      var more := HandlingFinishes(after, t, o);
      RunAppend(s, events, more, t);
      TimeAdds(events, more);
      events := events + more;
    }
  }

  lemma Supported(s: Station, t: Tables)
    requires StationInv(s, t) && AnswerHeld(s)
    ensures !s.meter.meterType.Unsupported?
  {
    hide Inv, DriverShape, FrameAsks;
  }

  // The time after which every request has ended: its timeout, the silence on the line, the waits after an error
  // and after start-up, and another wait after an error.
  function Deadline(s: Station): nat { s.line.bus.timeoutPeriod + WAIT_AFTER_READ_MS + Held(s.meter.guard) + 500 }

  lemma {:induction false} RequestFinishes(s: Station, t: Tables, o: Outside) returns (events: seq<Event>)
    requires TablesOk(t) && StationInv(s, t) && s.line.bus.request.state == Waiting
    requires s.line.bus.timeoutPeriod < WRAP && !s.meter.guard.stuck
    ensures Silent(events) && TimeOf(events) <= Deadline(s)
    ensures var after := Run(s, events, t);
            Finished(after) || Stopped(after, WatchedFor(s.meter, Now(s.line)), Deadline(s))
  {
    hide StationInv, TablesOk, BusValid, MeterShape, Run, Step, TimeOf, Held;
    var first := BusAnswers(s, t);
    var answered := Run(s, first, t);
    WatchedLonger(s, TimeOf(first));
    var second := AnswerFinishes(answered, t, o);
    RunAppend(s, first, second, t);
    TimeAdds(first, second);
    events := first + second;
  }

  ghost predicate Ends(s: Station, t: Tables, events: seq<Event>)
    requires TablesOk(t) && StationInv(s, t)
  {
    Silent(events) && TimeOf(events) <= Deadline(s) &&
    var after := Run(s, events, t);
    Finished(after) || Stopped(after, WatchedFor(s.meter, Now(s.line)), Deadline(s))
  }

  // No station is deadlocked: from every state with a request in flight that bus and meter reach, the request
  // ends within a bounded time although nothing more is received, unless the watchdog was due by then.
  lemma {:induction false} NoDeadlock(s: Station, t: Tables, o: Outside)
    requires TablesOk(t) && Reached(s, t) && s.line.bus.request.state == Waiting
    requires s.line.bus.timeoutPeriod < WRAP && !s.meter.guard.stuck
    ensures StationInv(s, t) && exists events: seq<Event> :: Ends(s, t, events)
  {
    hide StationInv, Reached, TablesOk, Run, TimeOf, Deadline, Stopped, Finished, Silent;
    EveryRun(s, t);
    var events := RequestFinishes(s, t, o);
    assert Ends(s, t, events);
  }

  // ----- The Iskra full scan and its fast reads ---------------------------------------------------------------

  // The full scan stands where it stood.
  predicate SameScan(m: Meter, after: Meter) {
    after.meterType == m.meterType && after.state == m.state &&
    after.scan.fullPosition == m.scan.fullPosition && after.scan.readOnce == m.scan.readOnce
  }

  // A tick now would come through to the driver.
  predicate ComesThrough(s: Station) {
    !s.meter.guard.stuck && var (awake, g) := Awake(s.meter.guard, Now(s.line));
    awake && !Watched(g, s.meter.state, Now(s.line)).stuck
  }

  // A full scan that is due for its next register gets its turn: no fast cycle is under way, and the last one
  // began less than 100 ms ago.
  predicate Due(s: Station) { ComesThrough(s) && !FastTurn(s.line, s.meter) }

  // What the fast tick does with everything but the registers.
  lemma FastTickIs(l: Line, m: Meter, o: Outside)
    requires BusValid(l.bus) && IskraShape(m)
    ensures var after := IskraFastTick(l, m, o).meter;
            var taken := m.fast.state in {1, 3} && !ResponseOf(l, ReadInput).Pending?;
            && SameScan(m, after)
            && after.guard ==
                 m.guard.(errorWait := if taken && l.bus.request.timedOut then Now(l) else m.guard.errorWait)
            && (m.fast.state == 0 ==> after.fast == Fast(1, true, Now(l)))
            && (m.fast.state != 0 ==> after.fast.start == m.fast.start)
            && (m.fast.state == 1 || m.fast.state == 2 ==> after.fast.active)
            && (m.fast.state == 3 ==> (after.fast.active <==> !taken))
  {
    hide BusValid, Done, Ask, ResponseOf, HasError, StoreBlock;
    var n := AfterResponse(m, l, true);
    BlockKeeps(n, l, FAST_VOLTAGES);
    BlockKeeps(n, l, FAST_CURRENTS);
  }

  lemma {:induction false} BlockKeeps(m: Meter, l: Line, targets: seq<Target>)
    requires BusValid(l.bus) && |targets| <= 4
    ensures var after := StoreBlock(m, l, targets); after == m.(readings := after.readings)
    decreases |targets|
  {
    hide BusValid, ResponseWord;
    if targets != [] {
      BlockKeeps(m, l, targets[..|targets| - 1]);
    }
  }

  lemma ScanStarts(l: Line, m: Meter, t: Table, o: Outside)
    requires BusValid(l.bus) && Positioned(m, t) && m.state == 0 && IskraShape(m)
    ensures var after := IskraTick(l, m, t, o).meter;
            if FastTurn(l, m) then after == IskraFastTick(l, m, o).meter else after == m.(state := 1)
  {
    hide BusValid, Terminated, Count, AskFor, IskraFastTick, Elapsed;
  }

  lemma IskraIs(s: Station, t: Tables, o: Outside)
    requires TablesOk(t) && StationInv(s, t) && IsIskra(s.meter.meterType) && s.meter.state == 0
    ensures BusValid(s.line.bus) && MeterShape(s.meter, t) && IskraShape(s.meter)
    ensures var l, m := s.line, s.meter;
            var after := Step(s, MainTick(o), t).meter;
            var g := Awake(m.guard, Now(l)).1;
            var n := m.(guard := Watched(g, 0, Now(l)));
            if !ComesThrough(s) then after == m.(guard := after.guard)
            else if FastTurn(l, m) then after == IskraFastTick(l, n, o).meter
            else after == n.(state := 1)
  {
    hide Inv, Agrees, BusValid, TablesOk, MeterShape, DriverTick, FindMeterType, IskraFastTick, Watched, Awake, Elapsed;
    var l, m := s.line, s.meter;
    InvValid(l);
    ShapeForTick(m, t);
    if !m.guard.stuck {
      var g := Awake(m.guard, Now(l)).1;
      var n := m.(guard := Watched(g, 0, Now(l)));
      GuardShape(m, n.guard, t);
      DriverIsIskra(l, n, t, o);
    }
  }

  lemma DriverIsIskra(l: Line, m: Meter, t: Tables, o: Outside)
    requires BusValid(l.bus) && TablesOk(t) && MeterShape(m, t) && IsIskra(m.meterType) && m.state == 0 && IskraShape(m)
    ensures var after := DriverTick(l, m, t, o).meter;
            if FastTurn(l, m) then after == IskraFastTick(l, m, o).meter else after == m.(state := 1)
  {
    hide BusValid, Terminated, Count, IskraTick, IskraFastTick, Elapsed, TableOf, EltakoTable, EastronTick,
         GenericTick, EltakoTick;
    ScanStarts(l, m, TableOf(t, m.meterType), o);
  }

  // Between two registers, a tick starts the next one exactly when the scan is due; any other tick leaves it
  // where it is.
  lemma FullScanTurn(s: Station, t: Tables, o: Outside)
    requires TablesOk(t) && StationInv(s, t) && IsIskra(s.meter.meterType) && s.meter.state == 0
    ensures var after := Step(s, MainTick(o), t).meter;
            (after.state == 1 <==> Due(s)) && (!Due(s) ==> SameScan(s.meter, after))
  {
    hide Inv, Agrees, BusValid, TablesOk, MeterShape, IskraFastTick, Watched, Awake, Elapsed, Step, ComesThrough;
    IskraIs(s, t, o);
    var n := s.meter.(guard := Watched(Awake(s.meter.guard, Now(s.line)).1, 0, Now(s.line)));
    FastTickIs(s.line, n, o);
  }

  // A tick that ends a fast cycle less than 100 ms after it began, and its second block was not timed out. (At
  // the instant 0 of the clock a timeout is not noted.)
  predicate EndsInTime(s: Station)
    requires BusValid(s.line.bus)
  {
    var l, m := s.line, s.meter;
    ComesThrough(s) && m.fast.state == 3 && !ResponseOf(l, ReadInput).Pending? &&
    !Elapsed(Now(l), m.fast.start, 100) && (l.bus.request.timedOut ==> Now(l) == 0)
  }

  // Since this instant a fast cycle is under way; or it has ended, late or at the other instant by a timeout.
  predicate InCycle(s: Station, began: nat, ended: nat) {
    var m, clock := s.meter, s.line.clock;
    && IsIskra(m.meterType) && m.state == 0 && m.guard.firstTick == 0
    && m.fast.start == Stamp(began) && began <= clock
    && (m.guard.stuck || m.fast.active || clock - began >= 100 ||
        (began <= ended <= clock && m.guard.errorWait == Stamp(ended) != 0))
  }

  // The watchdog counts on.
  predicate SameWatch(m: Meter, after: Meter) {
    m.guard.lastState == 0 ==> after.guard.lastState == 0 && after.guard.timeout == m.guard.timeout
  }

  // Then a tick that comes through finds the next fast cycle due before the full scan.
  lemma FastComesFirst(s: Station, began: nat, ended: nat)
    requires InCycle(s, began, ended) && s.line.clock < began + WRAP && ComesThrough(s)
    ensures FastTurn(s.line, s.meter)
  {
    ElapsedWithinWrap(s.line.clock, began, 100);
    if !s.meter.fast.active && s.line.clock - began < 100 {
      ElapsedIsReal(s.line.clock, ended, 500);
    }
    hide Elapsed, Stamp;
  }

  lemma WatchIs(s: Station)
    requires s.meter.guard.firstTick == 0
    ensures var g := Awake(s.meter.guard, Now(s.line)).1;
            var w := Watched(g, 0, Now(s.line));
            && w == s.meter.guard.(errorWait := g.errorWait, timeout := w.timeout, lastState := 0, stuck := w.stuck)
            && (s.meter.guard.lastState == 0 ==> w.timeout == s.meter.guard.timeout)
  {
    hide Elapsed;
  }

  lemma NotThrough(s: Station, t: Tables, o: Outside)
    requires TablesOk(t) && StationInv(s, t) && IsIskra(s.meter.meterType) && s.meter.state == 0
    requires s.meter.guard.firstTick == 0 && !ComesThrough(s)
    ensures var m, after := s.meter, Step(s, MainTick(o), t).meter;
            && after == m.(guard := after.guard) && after.guard.firstTick == 0
            && (after.guard.stuck || after.guard == m.guard) && (m.guard.stuck ==> after == m) && SameWatch(m, after)
  {
    hide Inv, DriverShape, Agrees, BusValid, TablesOk, MeterShape, DriverTick, FindMeterType, Elapsed;
    InvValid(s.line);
    ShapeForTick(s.meter, t);
  }

  lemma {:induction false} CycleTick(s: Station, t: Tables, o: Outside, began: nat, ended: nat)
      returns (from: nat, to: nat)
    requires TablesOk(t) && StationInv(s, t) && InCycle(s, began, ended) && s.line.clock < began + WRAP
    requires BusValid(s.line.bus) && !EndsInTime(s)
    ensures var after := Step(s, MainTick(o), t);
            && began <= from && InCycle(after, from, to) && !Due(s)
            && SameScan(s.meter, after.meter) && SameWatch(s.meter, after.meter)
  {
    hide Inv, Agrees, BusValid, TablesOk, MeterShape, IskraFastTick, Watched, Awake, Elapsed, Step, ComesThrough,
         ResponseOf, Stamp;
    var l, m := s.line, s.meter;
    ClockMoves(s, MainTick(o), t);
    from, to := began, ended;
    if !ComesThrough(s) {
      NotThrough(s, t, o);
    } else {
      FastComesFirst(s, began, ended);
      IskraIs(s, t, o);
      WatchIs(s);
      var n := m.(guard := Watched(Awake(m.guard, Now(l)).1, 0, Now(l)));
      FastTickIs(l, n, o);
      if m.fast.state == 0 {
        from := l.clock;
      } else if m.fast.state == 3 {
        if Elapsed(Now(l), m.fast.start, 100) {
          ElapsedIsReal(l.clock, began, 100);
        } else {
          to := l.clock;
        }
      }
    }
  }

  lemma {:induction false} CycleStep(s: Station, e: Event, t: Tables, began: nat, ended: nat)
      returns (from: nat, to: nat)
    requires TablesOk(t) && StationInv(s, t) && InCycle(s, began, ended) && s.line.clock < began + WRAP
    requires BusValid(s.line.bus) && (e.MainTick? ==> !EndsInTime(s))
    ensures var after := Step(s, e, t);
            && began <= from && InCycle(after, from, to) && (e.MainTick? ==> !Due(s))
            && SameScan(s.meter, after.meter) && SameWatch(s.meter, after.meter)
  {
    hide StationInv, TablesOk, BusValid, MeterShape, EndsInTime, Due, Stamp, MeterTick, OnRs485Tick, OnRxInterrupt,
         OnTxInterrupt;
    if e.MainTick? {
      from, to := CycleTick(s, t, e.o, began, ended);
    } else {
      from, to := began, ended;
      ClockMoves(s, e, t);
    }
  }

  // No tick of the run ends a fast cycle in time; no tick of the run gives the full scan its turn.
  predicate NoneInTime(s: Station, events: seq<Event>, t: Tables)
    requires TablesOk(t) && StationInv(s, t)
    decreases |events|
  {
    events == [] ||
    (InvValid(s.line);
     StepKeeps(s, events[0], t);
     (events[0].MainTick? ==> !EndsInTime(s)) && NoneInTime(Step(s, events[0], t), events[1..], t))
  }

  predicate NeverDue(s: Station, events: seq<Event>, t: Tables)
    requires TablesOk(t) && StationInv(s, t)
    decreases |events|
  {
    events == [] ||
    (StepKeeps(s, events[0], t);
     (events[0].MainTick? ==> !Due(s)) && NeverDue(Step(s, events[0], t), events[1..], t))
  }

  lemma {:induction false} CycleRuns(s: Station, events: seq<Event>, t: Tables, began: nat, ended: nat)
    requires TablesOk(t) && StationInv(s, t) && InCycle(s, began, ended) && NoneInTime(s, events, t)
    requires s.line.clock + TimeOf(events) < began + WRAP
    ensures var after := Run(s, events, t);
            && NeverDue(s, events, t) && SameScan(s.meter, after.meter) && SameWatch(s.meter, after.meter)
            && after.meter.guard.firstTick == 0
    decreases |events|
  {
    hide StationInv, TablesOk, BusValid, EndsInTime, Due, Stamp, Step;
    if events != [] {
      BusOf(s, t);
      StepKeeps(s, events[0], t);
      ClockMoves(s, events[0], t);
      var from, to := CycleStep(s, events[0], t, began, ended);
      CycleRuns(Step(s, events[0], t), events[1..], t, from, to);
    }
  }

  lemma BusOf(s: Station, t: Tables)
    requires StationInv(s, t)
    ensures BusValid(s.line.bus)
  {
    hide DriverShape, Agrees, BusValid;
  }

  // A fast cycle begins.
  predicate Begins(s: Station) {
    IsIskra(s.meter.meterType) && s.meter.state == 0 && s.meter.fast.state == 0 &&
    ComesThrough(s) && FastTurn(s.line, s.meter)
  }

  lemma CycleBegins(s: Station, t: Tables, o: Outside)
    requires TablesOk(t) && StationInv(s, t) && Begins(s)
    ensures var after := Step(s, MainTick(o), t);
            && InCycle(after, s.line.clock, s.line.clock) && after.meter.guard.lastState == 0
            && SameScan(s.meter, after.meter) && after.line.clock == s.line.clock && !after.meter.guard.stuck
  {
    hide Inv, Agrees, BusValid, TablesOk, MeterShape, IskraFastTick, Elapsed, Step, ResponseOf, Stamp;
    var l, m := s.line, s.meter;
    ClockMoves(s, MainTick(o), t);
    IskraIs(s, t, o);
    FastTickIs(l, m.(guard := Watched(Awake(m.guard, Now(l)).1, 0, Now(l))), o);
  }

  // A minute in one state, and the next tick that is not held back never returns.
  lemma WatchdogStops(s: Station, t: Tables, o: Outside)
    requires TablesOk(t) && StationInv(s, t) && IsIskra(s.meter.meterType) && Awake(s.meter.guard, Now(s.line)).0
    requires s.meter.guard.lastState == s.meter.state && Elapsed(Now(s.line), s.meter.guard.timeout, 60000)
    ensures Step(s, MainTick(o), t).meter.guard.stuck
  {
    hide Inv, DriverShape, Agrees, BusValid, TablesOk, MeterShape, DriverTick, FindMeterType, Elapsed;
    InvValid(s.line);
    ShapeForTick(s.meter, t);
  }

  lemma {:induction false} StuckForever(s: Station, events: seq<Event>, t: Tables)
    requires TablesOk(t) && StationInv(s, t) && s.meter.guard.stuck
    ensures Run(s, events, t).meter == s.meter
    decreases |events|
  {
    hide StationInv, TablesOk, Step;
    if events != [] {
      StepKeeps(s, events[0], t);
      StuckStays(s, events[0], t);
      StuckForever(Step(s, events[0], t), events[1..], t);
    }
  }

  lemma StuckStays(s: Station, e: Event, t: Tables)
    requires TablesOk(t) && StationInv(s, t) && s.meter.guard.stuck
    ensures Step(s, e, t).meter == s.meter
  {
    hide Inv, DriverShape, Agrees, BusValid, TablesOk, MeterShape, DriverTick, OnRs485Tick, OnRxInterrupt,
         OnTxInterrupt;
    InvLength(s.line);
    ShapeForTick(s.meter, t);
  }

  // Starvation: once a fast cycle has begun, the full scan gets no turn in any run, and reads no register in it,
  // unless some fast cycle ends less than 100 ms after it began. A tick a minute after the watchdog last saw
  // another state then stops the driver for good.
  lemma {:induction false} FullScanStarves(s: Station, first: Outside, events: seq<Event>, last: Outside, t: Tables)
    requires TablesOk(t) && StationInv(s, t) && Begins(s) && TimeOf(events) < WRAP
    requires var start := Step(s, MainTick(first), t); StationInv(start, t) && NoneInTime(start, events, t)
    ensures var start := Step(s, MainTick(first), t);
            var after := Run(start, events, t);
            && NeverDue(start, events, t) && SameScan(s.meter, after.meter) && StationInv(after, t)
            && after.meter.guard.timeout == start.meter.guard.timeout
            && (Awake(after.meter.guard, Now(after.line)).0 &&
                Elapsed(Now(after.line), start.meter.guard.timeout, 60000) ==>
                  Step(after, MainTick(last), t).meter.guard.stuck)
  {
    hide StationInv, TablesOk, Begins, InCycle, NoneInTime, NeverDue, Step, Run, Awake, Elapsed;
    CycleBegins(s, t, first);
    var start := Step(s, MainTick(first), t);
    InCycleOf(start, s.line.clock, s.line.clock);
    CycleRuns(start, events, t, s.line.clock, s.line.clock);
    RunKeeps(start, events, t);
    var after := Run(start, events, t);
    if Awake(after.meter.guard, Now(after.line)).0 && Elapsed(Now(after.line), start.meter.guard.timeout, 60000) {
      WatchdogStops(after, t, last);
    }
  }

  lemma InCycleOf(s: Station, began: nat, ended: nat)
    requires InCycle(s, began, ended)
    ensures IsIskra(s.meter.meterType) && s.meter.state == 0
  {}
}
