/** The full-duplex SPI transfer of warp/wem/sdmmc.c: outgoing and incoming bytes share one buffer, filled
    and drained by two interrupt handlers that may interleave at every byte. */
module Spi {
  import opened Wrappers

  const BUFFER_SIZE := 512
  const FIFO_SIZE := 16
  // The receive interrupt comes in when the level rises above this.
  const LEVEL := 8

  // Indices and buffer of the driver, the hardware between them, and what has passed over the wires.
  datatype Transfer = Transfer(
    buffer: seq<bv8>, mosiIndex: nat, misoIndex: nat, length: nat,
    pushLeft: nat, popLeft: nat,                  // what running handlers have still to move
    tx: seq<bv8>, shifter: seq<bv8>, rx: seq<bv8>,
    sent: seq<bv8>, received: seq<bv8>)

  datatype Event =
    | MosiEnter                   // the transmit handler computes how much it may push
    | MosiPush                    // and pushes one byte
    | MisoEnter                   // the receive handler, or the manual drain, looks at the level
    | MisoPop                     // and takes one byte
    | Load                        // the shifter takes a byte from the transmit FIFO
    | Shift(incoming: bv8)        // and exchanges it for one that enters the receive FIFO

  // What cannot happen in a state changes nothing; the receive FIFO is assumed not to overrun.
  function Step(t: Transfer, e: Event): Transfer {
    match e
    case MosiEnter =>
      if t.pushLeft == 0 && t.mosiIndex <= t.length && |t.tx| <= FIFO_SIZE && |t.rx| <= FIFO_SIZE then
        t.(pushLeft := Min(t.length - t.mosiIndex, Min(FIFO_SIZE - |t.tx|, FIFO_SIZE - |t.rx|)))
      else t
    case MosiPush =>
      if t.pushLeft > 0 && t.mosiIndex < |t.buffer| then
        t.(tx := t.tx + [t.buffer[t.mosiIndex]], mosiIndex := t.mosiIndex + 1, pushLeft := t.pushLeft - 1)
      else t
    case MisoEnter =>
      if t.popLeft == 0 then t.(popLeft := |t.rx|) else t
    case MisoPop =>
      if t.popLeft > 0 && |t.rx| > 0 && t.misoIndex < |t.buffer| then
        t.(buffer := t.buffer[t.misoIndex := t.rx[0]], rx := t.rx[1..], misoIndex := t.misoIndex + 1,
           popLeft := t.popLeft - 1)
      else t
    case Load =>
      if t.shifter == [] && |t.tx| > 0 then t.(shifter := [t.tx[0]], tx := t.tx[1..]) else t
    case Shift(incoming) =>
      if t.shifter != [] && |t.rx| < FIFO_SIZE then
        t.(sent := t.sent + t.shifter, shifter := [], rx := t.rx + [incoming], received := t.received + [incoming])
      else t
  }

  function Run(t: Transfer, events: seq<Event>): Transfer
    decreases |events|
  {
    if events == [] then t else Run(Step(t, events[0]), events[1..])
  }

  // sdmmc_spi_transceive_async sets up the buffer and both indices on flushed FIFOs.
  function Start(data: seq<bv8>, rest: seq<bv8>): Transfer {
    Transfer(data + rest, 0, 0, |data|, 0, 0, [], [], [], [], [])
  }

  // Everything between the two indices is on its way through the hardware.
  predicate Balanced(t: Transfer) {
    t.mosiIndex == t.misoIndex + |t.rx| + |t.shifter| + |t.tx| && t.mosiIndex + t.pushLeft <= t.length <= |t.buffer| &&
    t.popLeft <= |t.rx| <= FIFO_SIZE && |t.tx| + t.pushLeft <= FIFO_SIZE && |t.shifter| <= 1
  }

  // Bytes that were not drained yet are still the outgoing ones; what was drained is what came in.
  predicate InOrder(t: Transfer, data: seq<bv8>) {
    t.length == |data| && t.misoIndex <= |data| <= |t.buffer| &&
    t.mosiIndex <= |data| && t.sent + t.shifter + t.tx == data[..t.mosiIndex] &&
    t.buffer[t.misoIndex..|data|] == data[t.misoIndex..] &&
    t.misoIndex <= |t.received| && t.buffer[..t.misoIndex] == t.received[..t.misoIndex] &&
    t.rx == t.received[t.misoIndex..]
  }

  predicate Inv(t: Transfer, data: seq<bv8>) { Balanced(t) && InOrder(t, data) }

  lemma StartInv(data: seq<bv8>, rest: seq<bv8>)
    ensures Inv(Start(data, rest), data)
  {}

  lemma PushKeeps(t: Transfer, data: seq<bv8>)
    requires Inv(t, data)
    ensures Inv(Step(t, MosiPush), data)
  {
    if t.pushLeft > 0 {
      assert t.buffer[t.mosiIndex] == t.buffer[t.misoIndex..|data|][t.mosiIndex - t.misoIndex] == data[t.mosiIndex];
      assert t.sent + t.shifter + (t.tx + [data[t.mosiIndex]]) == data[..t.mosiIndex] + [data[t.mosiIndex]];
      assert data[..t.mosiIndex] + [data[t.mosiIndex]] == data[..t.mosiIndex + 1];
    }
  }

  // A drained byte replaces one that has been clocked out before.
  lemma PopKeeps(t: Transfer, data: seq<bv8>)
    requires Inv(t, data)
    ensures Inv(Step(t, MisoPop), data)
  {
    if t.popLeft > 0 {
      var after := Step(t, MisoPop);
      assert t.received[t.misoIndex] == t.rx[0];
      assert after.buffer[..after.misoIndex] == t.buffer[..t.misoIndex] + [t.rx[0]];
      assert t.received[..t.misoIndex] + [t.received[t.misoIndex]] == t.received[..after.misoIndex];
      assert after.buffer[after.misoIndex..|data|] == t.buffer[t.misoIndex..|data|][1..];
    }
  }

  lemma WireKeeps(t: Transfer, e: Event, data: seq<bv8>)
    requires Inv(t, data) && (e.Load? || e.Shift?)
    ensures Inv(Step(t, e), data)
  {
    if e.Load? && t.shifter == [] && |t.tx| > 0 {
      assert t.sent + t.shifter + t.tx == t.sent + [t.tx[0]] + t.tx[1..];
    }
    if e.Shift? && t.shifter != [] && |t.rx| < FIFO_SIZE {
      assert t.sent + t.shifter + [] + t.tx == t.sent + t.shifter + t.tx;
      assert (t.received + [e.incoming])[t.misoIndex..] == t.rx + [e.incoming];
      assert (t.received + [e.incoming])[..t.misoIndex] == t.received[..t.misoIndex];
    }
  }

  lemma StepKeeps(t: Transfer, e: Event, data: seq<bv8>)
    requires Inv(t, data)
    ensures Inv(Step(t, e), data)
  {
    match e
    case MosiPush => PushKeeps(t, data);
    case MisoPop => PopKeeps(t, data);
    case Load => WireKeeps(t, e, data);
    case Shift(_) => WireKeeps(t, e, data);
    case _ =>
  }

  lemma {:induction false} RunKeeps(t: Transfer, events: seq<Event>, data: seq<bv8>)
    requires Inv(t, data)
    ensures Inv(Run(t, events), data)
    decreases |events|
  {
    hide Inv, Step;
    if events != [] {
      StepKeeps(t, events[0], data);
      RunKeeps(Step(t, events[0]), events[1..], data);
    }
  }

  // Over every interleaving: the k-th byte clocked out is the k-th byte handed over, and a byte that was
  // not clocked out yet is still in its place in the buffer.
  lemma {:induction false} SentInOrder(data: seq<bv8>, rest: seq<bv8>, events: seq<Event>)
    ensures var t := Run(Start(data, rest), events);
            && t.sent <= data && t.misoIndex <= |t.sent| <= t.mosiIndex <= |data|
            && |t.buffer| >= |data| && t.buffer[|t.sent|..|data|] == data[|t.sent|..]
            && t.mosiIndex == t.misoIndex + |t.rx| + |t.shifter| + |t.tx|
  {
    hide Run, Start, Inv;
    StartInv(data, rest);
    RunKeeps(Start(data, rest), events, data);
    var t := Run(Start(data, rest), events);
    SentCount(t, data);
    SentIsPrefix(t, data);
    UnsentIsUnharmed(t, data);
  }

  lemma SentIsPrefix(t: Transfer, data: seq<bv8>)
    requires Inv(t, data)
    ensures t.sent <= data
  {
    var sent, clocking := t.sent, t.shifter + t.tx;
    assert sent + clocking == t.sent + t.shifter + t.tx == data[..t.mosiIndex];
    assert sent == (sent + clocking)[..|sent|];
  }

  lemma UnsentIsUnharmed(t: Transfer, data: seq<bv8>)
    requires Inv(t, data) && t.misoIndex <= |t.sent| <= |data|
    ensures |t.buffer| >= |data| && t.buffer[|t.sent|..|data|] == data[|t.sent|..]
  {
    assert t.buffer[|t.sent|..|data|] == t.buffer[t.misoIndex..|data|][|t.sent| - t.misoIndex..];
  }

  lemma SentCount(t: Transfer, data: seq<bv8>)
    requires Inv(t, data)
    ensures |t.sent| == t.misoIndex + |t.rx| == |t.received| && |t.sent| <= t.mosiIndex <= |data|
    ensures t.mosiIndex == t.misoIndex + |t.rx| + |t.shifter| + |t.tx|
  {
    assert |t.sent + t.shifter + t.tx| == |data[..t.mosiIndex]|;
  }

  // When both indices have reached the length, every byte was sent and the buffer holds what came in.
  lemma {:induction false} CompleteTransfer(data: seq<bv8>, rest: seq<bv8>, events: seq<Event>)
    ensures var t := Run(Start(data, rest), events);
            t.misoIndex >= t.length && t.mosiIndex >= t.length ==>
              t.sent == data && |t.received| == |data| <= |t.buffer| && t.buffer[..|data|] == t.received
  {
    RunKeeps(Start(data, rest), events, data);
    StartInv(data, rest);
    hide Run;
    var t := Run(Start(data, rest), events);
    SentCount(t, data);
    if t.misoIndex >= t.length && t.mosiIndex >= t.length {
      assert t.sent + t.shifter + t.tx == t.sent == data[..|data|] == data;
      assert t.received[..t.misoIndex] == t.received;
    }
  }

  // ----- Whole handlers and rounds ------------------------------------------------------------------------

  // One round of the transfer's loop: whether the transmit interrupt comes in, the bytes the wire delivers,
  // and whether the receive interrupt comes in.
  datatype Round = Round(mosiIrq: bool, incoming: seq<bv8>, misoIrq: bool)

  function Pops(t: Transfer, n: nat): Transfer
    decreases n
  {
    if n == 0 then t else Pops(Step(t, MisoPop), n - 1)
  }

  function Pushes(t: Transfer, n: nat): Transfer
    decreases n
  {
    if n == 0 then t else Pushes(Step(t, MosiPush), n - 1)
  }

  // sdmmc_miso_irq_handler
  function Drained(t: Transfer): Transfer { Pops(Step(t, MisoEnter), |t.rx|) }

  // sdmmc_mosi_irq_handler
  function Filled(t: Transfer): Transfer {
    var u := Step(t, MosiEnter);
    Pushes(u, u.pushLeft)
  }

  // The hardware moves one byte for each incoming byte, if it can.
  function ClockedOne(t: Transfer, incoming: bv8): Transfer { Step(Step(t, Load), Shift(incoming)) }

  function Clocked(t: Transfer, incoming: seq<bv8>): Transfer
    decreases |incoming|
  {
    if incoming == [] then t else Clocked(ClockedOne(t, incoming[0]), incoming[1..])
  }

  // Up to the point where the receive interrupt comes in, if it does.
  function ClockedIn(t: Transfer, round: Round): Transfer {
    Clocked(if round.mosiIrq then Filled(t) else t, round.incoming)
  }

  function Yielded(t: Transfer, round: Round): Transfer {
    if round.misoIrq then Drained(ClockedIn(t, round)) else ClockedIn(t, round)
  }

  function Rounded(t: Transfer, round: Round): Transfer {
    var y := Yielded(t, round);
    var d := if y.length - y.misoIndex <= LEVEL then Drained(y) else y;
    if |d.tx| < 8 then Filled(d) else d
  }

  predicate Complete(t: Transfer) { t.misoIndex >= t.length && t.mosiIndex >= t.length }

  // The loop of sdmmc_spi_transceive_async; the timeout elapses in the last of the rounds.
  function Outcome(t: Transfer, rounds: seq<Round>): (Transfer, bool)
    requires |rounds| > 0
    decreases |rounds|
  {
    if Complete(t) then (t, true) else
    var next := Rounded(t, rounds[0]);
    if |rounds| == 1 then (next, false) else Outcome(next, rounds[1..])
  }

  // No handler is running.
  predicate Between(t: Transfer, data: seq<bv8>) { Inv(t, data) && t.popLeft == 0 && t.pushLeft == 0 }

  lemma {:induction false} PopsFacts(t: Transfer, data: seq<bv8>)
    requires Inv(t, data)
    ensures var u := Pops(t, t.popLeft);
            Inv(u, data) && u == t.(buffer := u.buffer, rx := t.rx[t.popLeft..], misoIndex := t.misoIndex + t.popLeft,
                                    popLeft := 0)
    decreases t.popLeft
  {
    if t.popLeft > 0 {
      PopKeeps(t, data);
      PopsFacts(Step(t, MisoPop), data);
      hide Inv;
      assert t.rx[1..][t.popLeft - 1..] == t.rx[t.popLeft..];
    } else {
      assert t.rx[0..] == t.rx;
    }
  }

  lemma {:induction false} PushesFacts(t: Transfer, data: seq<bv8>)
    requires Inv(t, data)
    ensures var u := Pushes(t, t.pushLeft);
            Inv(u, data) && u == t.(tx := u.tx, mosiIndex := t.mosiIndex + t.pushLeft, pushLeft := 0) &&
            |u.tx| == |t.tx| + t.pushLeft
    decreases t.pushLeft
  {
    hide InOrder;
    if t.pushLeft > 0 {
      PushKeeps(t, data);
      PushesFacts(Step(t, MosiPush), data);
    }
  }

  lemma DrainedFacts(t: Transfer, data: seq<bv8>)
    requires Between(t, data)
    ensures var u := Drained(t);
            Between(u, data) && u == t.(buffer := u.buffer, rx := [], misoIndex := t.misoIndex + |t.rx|)
  {
    PopsFacts(Step(t, MisoEnter), data);
    hide InOrder;
  }

  lemma EnterKeeps(t: Transfer, data: seq<bv8>)
    requires Inv(t, data)
    ensures Inv(Step(t, MosiEnter), data)
  {}

  lemma FilledFacts(t: Transfer, data: seq<bv8>)
    requires Between(t, data)
    ensures var u, n := Filled(t), Min(t.length - t.mosiIndex, Min(FIFO_SIZE - |t.tx|, FIFO_SIZE - |t.rx|));
            Between(u, data) && u == t.(tx := u.tx, mosiIndex := t.mosiIndex + n) && |u.tx| == |t.tx| + n
  {
    EnterKeeps(t, data);
    hide InOrder;
    PushesFacts(Step(t, MosiEnter), data);
  }

  lemma ClockedOneFacts(t: Transfer, incoming: bv8, data: seq<bv8>)
    requires Between(t, data)
    ensures var u := ClockedOne(t, incoming);
            && Between(u, data) && u.misoIndex == t.misoIndex && u.mosiIndex == t.mosiIndex && u.length == t.length
            && |u.rx| == if |t.rx| < FIFO_SIZE && (t.shifter != [] || t.tx != []) then |t.rx| + 1 else |t.rx|
  {
    WireKeeps(t, Load, data);
    WireKeeps(Step(t, Load), Shift(incoming), data);
    hide InOrder;
  }

  lemma {:induction false} ClockedFacts(t: Transfer, incoming: seq<bv8>, data: seq<bv8>)
    requires Between(t, data)
    ensures var u := Clocked(t, incoming);
            && Between(u, data) && u.misoIndex == t.misoIndex && u.mosiIndex == t.mosiIndex && u.length == t.length
            && |u.rx| >= |t.rx|
            && (|incoming| > 0 && (t.shifter != [] || t.tx != []) && |t.rx| < FIFO_SIZE ==> |u.rx| > |t.rx|)
    decreases |incoming|
  {
    hide ClockedOne, Inv;
    if incoming != [] {
      ClockedOneFacts(t, incoming[0], data);
      ClockedFacts(ClockedOne(t, incoming[0]), incoming[1..], data);
    }
  }

  lemma ClockedInFacts(t: Transfer, round: Round, data: seq<bv8>)
    requires Between(t, data)
    ensures var u := ClockedIn(t, round);
            && Between(u, data) && u.misoIndex == t.misoIndex && u.length == t.length && |u.rx| >= |t.rx|
            && (|round.incoming| > 0 && (t.shifter != [] || t.tx != []) && |t.rx| < FIFO_SIZE ==> |u.rx| > |t.rx|)
  {
    hide Inv, Filled, Clocked;
    FilledFacts(t, data);
    ClockedFacts(if round.mosiIrq then Filled(t) else t, round.incoming, data);
  }

  lemma YieldedFacts(t: Transfer, round: Round, data: seq<bv8>)
    requires Between(t, data)
    ensures var c, u := ClockedIn(t, round), Yielded(t, round);
            && Between(u, data) && u.length == t.length && u.misoIndex >= t.misoIndex
            && (if round.misoIrq then u.rx == [] && u.misoIndex == t.misoIndex + |c.rx| else u == c)
  {
    hide Inv, ClockedIn, Drained;
    ClockedInFacts(t, round, data);
    DrainedFacts(ClockedIn(t, round), data);
  }

  lemma RoundedKeeps(t: Transfer, round: Round, data: seq<bv8>)
    requires Between(t, data)
    ensures Between(Rounded(t, round), data) && Rounded(t, round).length == t.length
  {
    hide Inv, Yielded, Filled, Drained;
    YieldedFacts(t, round, data);
    var y := Yielded(t, round);
    DrainedFacts(y, data);
    FilledFacts(y, data);
    FilledFacts(Drained(y), data);
  }

  lemma RoomToPop(t: Transfer, data: seq<bv8>)
    requires Inv(t, data) && |t.rx| > 0
    ensures t.misoIndex < |t.buffer|
  {}

  lemma LevelOf(t: Transfer)
    requires t.popLeft == 0
    ensures Step(t, MisoEnter) == t.(popLeft := |t.rx|)
  {}

  lemma RoomToPush(t: Transfer, data: seq<bv8>)
    requires Inv(t, data) && t.pushLeft > 0
    ensures t.mosiIndex < |t.buffer|
  {}

  lemma RoomInFifos(t: Transfer, data: seq<bv8>)
    requires Between(t, data)
    ensures t.mosiIndex <= t.length && |t.tx| <= FIFO_SIZE && |t.rx| <= FIFO_SIZE
    ensures Step(t, MosiEnter).pushLeft == Min(t.length - t.mosiIndex, Min(FIFO_SIZE - |t.tx|, FIFO_SIZE - |t.rx|))
    ensures Step(t, MosiEnter) == t.(pushLeft := Step(t, MosiEnter).pushLeft)
  {}

  // What the wire delivers in this round is at least one byte, and the receive interrupt comes in if it takes
  // the level of the receive FIFO above eight; at a lower level it need not.
  predicate Serves(t: Transfer, round: Round) {
    |round.incoming| > 0 && (|ClockedIn(t, round).rx| > LEVEL ==> round.misoIrq)
  }

  predicate Served(t: Transfer, rounds: seq<Round>)
    decreases |rounds|
  {
    Complete(t) || rounds == [] || (Serves(t, rounds[0]) && Served(Rounded(t, rounds[0]), rounds[1..]))
  }

  // Everything is handed to the hardware, or something is waiting in the transmit FIFO; the last bytes have
  // been drained by hand.
  predicate Going(t: Transfer, data: seq<bv8>) {
    Between(t, data) && |t.rx| <= LEVEL && (t.length - t.misoIndex <= LEVEL ==> t.rx == []) &&
    (t.mosiIndex < t.length ==> t.tx != [])
  }

  // Each byte still has to be received and to be drained.
  function StepsLeft(t: Transfer): int { 2 * (t.length - t.misoIndex) - |t.rx| }

  lemma DrainByHand(y: Transfer, data: seq<bv8>)
    requires Between(y, data) && |y.rx| <= LEVEL
    ensures var d := if y.length - y.misoIndex <= LEVEL then Drained(y) else y;
            && Between(d, data) && d.length == y.length && |d.rx| <= LEVEL && StepsLeft(d) <= StepsLeft(y)
            && (d.length - d.misoIndex <= LEVEL ==> d.rx == [])
  {
    hide Inv, Drained;
    DrainedFacts(y, data);
  }

  lemma FillFifo(d: Transfer, data: seq<bv8>)
    requires Between(d, data) && |d.rx| <= LEVEL && (d.length - d.misoIndex <= LEVEL ==> d.rx == [])
    ensures var u := if |d.tx| < 8 then Filled(d) else d;
            Going(u, data) && u.length == d.length && StepsLeft(u) == StepsLeft(d)
  {
    FilledFacts(d, data);
    hide Filled, InOrder;
  }

  lemma YieldAdvances(t: Transfer, round: Round, data: seq<bv8>)
    requires Between(t, data) && |t.rx| <= LEVEL && Serves(t, round)
    ensures var y := Yielded(t, round);
            && Between(y, data) && y.length == t.length && |y.rx| <= LEVEL && StepsLeft(y) <= StepsLeft(t)
            && (t.shifter != [] || t.tx != [] ==> StepsLeft(y) < StepsLeft(t))
  {
    hide Inv, ClockedIn, Yielded;
    ClockedInFacts(t, round, data);
    YieldedFacts(t, round, data);
  }

  lemma InFlight(t: Transfer, data: seq<bv8>)
    requires Going(t, data) && !Complete(t)
    ensures t.shifter != [] || t.tx != []
  {}

  // A round gets the transfer going, and brings one that is going further: a byte is received, or drained.
  lemma RoundAdvances(t: Transfer, round: Round, data: seq<bv8>)
    requires Between(t, data) && |t.rx| <= LEVEL && Serves(t, round)
    ensures var u := Rounded(t, round);
            && Going(u, data) && u.length == t.length && StepsLeft(u) <= StepsLeft(t)
            && (Going(t, data) && !Complete(t) ==> StepsLeft(u) < StepsLeft(t))
  {
    hide Inv, Serves, Yielded, Filled, Drained, StepsLeft, Complete;
    YieldAdvances(t, round, data);
    if Going(t, data) && !Complete(t) {
      InFlight(t, data);
    }
    hide Going;
    var y := Yielded(t, round);
    DrainByHand(y, data);
    FillFifo(if y.length - y.misoIndex <= LEVEL then Drained(y) else y, data);
  }

  lemma NothingLeft(t: Transfer, data: seq<bv8>)
    requires Between(t, data)
    ensures StepsLeft(t) >= 0 && (StepsLeft(t) == 0 ==> Complete(t))
  {}

  lemma {:induction false} GoingCompletes(t: Transfer, rounds: seq<Round>, data: seq<bv8>)
    requires Going(t, data) && |rounds| > StepsLeft(t) && |rounds| > 0 && Served(t, rounds)
    ensures Outcome(t, rounds).1
    decreases |rounds|
  {
    hide Inv, Rounded, Serves, StepsLeft;
    NothingLeft(t, data);
    if !Complete(t) {
      RoundAdvances(t, rounds[0], data);
      GoingCompletes(Rounded(t, rounds[0]), rounds[1..], data);
    }
  }

  // The transfer cannot get stuck, although the receive interrupt only comes in when the level goes from
  // eight to nine: if the wire delivers at least one byte in every round, 2 * |data| + 2 rounds before the
  // timeout are enough, for short transfers and the last bytes of long ones by the drain by hand.
  lemma {:induction false} TransferCompletes(data: seq<bv8>, rest: seq<bv8>, rounds: seq<Round>)
    requires |rounds| >= 2 * |data| + 2 && Served(Start(data, rest), rounds)
    ensures Outcome(Start(data, rest), rounds).1
  {
    var t := Start(data, rest);
    StartInv(data, rest);
    hide Inv, Rounded, Serves;
    if !Complete(t) {
      RoundAdvances(t, rounds[0], data);
      GoingCompletes(Rounded(t, rounds[0]), rounds[1..], data);
    }
  }

  // However a transfer ends, the buffer is as long as before; if it succeeded, every byte was sent and the
  // buffer holds exactly what came in.
  lemma {:induction false} OutcomeFacts(t: Transfer, rounds: seq<Round>, data: seq<bv8>)
    requires Between(t, data) && |rounds| > 0
    ensures var (u, ok) := Outcome(t, rounds);
            && Between(u, data)
            && (ok ==> u.sent == data && |u.received| == |data| <= |u.buffer| && u.buffer[..|data|] == u.received)
    decreases |rounds|
  {
    hide Rounded;
    if Complete(t) {
      SentCount(t, data);
      assert t.sent + t.shifter + t.tx == t.sent == data[..|data|] == data;
      assert t.received[..t.misoIndex] == t.received;
    } else {
      hide Inv;
      RoundedKeeps(t, rounds[0], data);
      if |rounds| > 1 {
        OutcomeFacts(Rounded(t, rounds[0]), rounds[1..], data);
      }
    }
  }

  // ----- The handlers and the transfer in place -----------------------------------------------------------

  class SpiMaster {
    const buffer: array<bv8>
    var mosiIndex: nat
    var misoIndex: nat
    var length: nat
    // The hardware.
    var tx: seq<bv8>
    var shifter: seq<bv8>
    var rx: seq<bv8>
    ghost var sent: seq<bv8>
    ghost var received: seq<bv8>

    constructor ()
      ensures buffer.Length == BUFFER_SIZE && fresh(buffer) && tx == [] && shifter == [] && rx == []
    {
      buffer := new bv8[BUFFER_SIZE](i => 0);
      mosiIndex, misoIndex, length, tx, shifter, rx, sent, received := 0, 0, 0, [], [], [], [], [];
    }

    // Between handlers.
    ghost function View(): Transfer
      reads this, buffer
    {
      Transfer(buffer[..], mosiIndex, misoIndex, length, 0, 0, tx, shifter, rx, sent, received)
    }

    // sdmmc_miso_irq_handler, also called to drain by hand
    method MisoIrqHandler(ghost data: seq<bv8>)
      requires Between(View(), data)
      modifies this, buffer
      ensures Between(View(), data) && View() == Drained(old(View()))
    {
      hide Inv, Step;
      DrainedFacts(View(), data);
      var amount := |rx|;
      ghost var t := View().(popLeft := amount);
      StepKeeps(View(), MisoEnter, data);
      LevelOf(View());
      while amount > 0
        invariant 0 <= amount == |rx|
        invariant View().(popLeft := amount) == t && Inv(t, data)
        invariant Pops(t, amount) == Drained(old(View()))
      {
        RoomToPop(t, data);
        StepKeeps(t, MisoPop, data);
        t := Step(t, MisoPop);
        PopByte(amount);
        amount := amount - 1;
      }
    }

    method PopByte(ghost left: nat)
      requires left == |rx| > 0 && misoIndex < buffer.Length
      modifies this, buffer
      ensures View().(popLeft := left - 1) == Step(old(View()).(popLeft := left), MisoPop) && |rx| == left - 1
    {
      buffer[misoIndex] := rx[0];
      rx := rx[1..];
      misoIndex := misoIndex + 1;
    }

    // sdmmc_mosi_irq_handler
    method MosiIrqHandler(ghost data: seq<bv8>)
      requires Between(View(), data)
      modifies this
      ensures Between(View(), data) && View() == Filled(old(View()))
    {
      hide Inv, Step;
      FilledFacts(View(), data);
      StepKeeps(View(), MosiEnter, data);
      RoomInFifos(View(), data);
      var toSend := length - mosiIndex;
      var fifoLevel := Min(FIFO_SIZE - |tx|, FIFO_SIZE - |rx|);
      var amount := Min(toSend, fifoLevel);
      ghost var t := View().(pushLeft := amount);
      while amount > 0
        invariant 0 <= amount
        invariant View().(pushLeft := amount) == t && Inv(t, data)
        invariant Pushes(t, amount) == Filled(old(View()))
      {
        RoomToPush(t, data);
        StepKeeps(t, MosiPush, data);
        t := Step(t, MosiPush);
        PushByte(amount);
        amount := amount - 1;
      }
    }

    method PushByte(ghost left: nat)
      requires left > 0 && mosiIndex < buffer.Length
      modifies this
      ensures View().(pushLeft := left - 1) == Step(old(View()).(pushLeft := left), MosiPush)
    {
      tx := tx + [buffer[mosiIndex]];
      mosiIndex := mosiIndex + 1;
    }

    // The hardware moves one byte, if it can.
    method Clock(incoming: bv8, ghost data: seq<bv8>)
      requires Between(View(), data)
      modifies this
      ensures Between(View(), data) && View() == ClockedOne(old(View()), incoming)
    {
      hide Inv;
      ClockedOneFacts(View(), incoming, data);
      if shifter == [] && |tx| > 0 {
        shifter := [tx[0]];
        tx := tx[1..];
      }
      if shifter != [] && |rx| < FIFO_SIZE {
        sent := sent + shifter;
        shifter := [];
        rx := rx + [incoming];
        received := received + [incoming];
      }
    }

    // sdmmc_spi_transceive_async. Each round of its loop first yields; the timeout elapses in the last one.
    method Transceive(data: seq<bv8>, rounds: seq<Round>) returns (ok: bool, miso: seq<bv8>)
      requires |data| <= buffer.Length && tx == [] && shifter == [] && rx == [] && |rounds| > 0
      modifies this, buffer
      ensures var (t, complete) := Outcome(Start(data, old(buffer[|data|..])), rounds);
              ok == complete && buffer[..] == t.buffer && sent == t.sent && received == t.received
      ensures miso == buffer[..|data|]
      ensures ok ==> sent == data && miso == received
      ensures misoIndex == mosiIndex == length == 0
    {
      ghost var rest := buffer[|data|..];
      for i := 0 to |data|
        invariant buffer[..i] == data[..i] && tx == [] && shifter == [] && rx == []
        invariant buffer[|data|..] == rest
      {
        buffer[i] := data[i];
      }
      misoIndex, mosiIndex, length, sent, received := 0, 0, |data|, [], [];
      assert buffer[..|data|] == data;
      assert buffer[..] == buffer[..|data|] + buffer[|data|..];
      StartInv(data, rest);
      ghost var start := Start(data, rest);
      assert View() == start;
      OutcomeFacts(start, rounds, data);
      hide Inv;
      var round := 0;
      ok := true;
      while misoIndex < length || mosiIndex < length
        invariant Between(View(), data) && ok && round < |rounds|
        invariant Outcome(View(), rounds[round..]) == Outcome(start, rounds)
        decreases |rounds| - round
      {
        RunRound(rounds[round], data);
        round := round + 1;
        if round == |rounds| {
          ok := false;
          break;
        }
      }
      miso := buffer[..|data|];
      misoIndex, mosiIndex, length := 0, 0, 0;
    }

    // One round: yield, drain by hand near the end, and trigger the transmit handler.
    method RunRound(round: Round, ghost data: seq<bv8>)
      requires Between(View(), data)
      modifies this, buffer
      ensures Between(View(), data) && View() == Rounded(old(View()), round)
    {
      RoundedKeeps(View(), round, data);
      hide Inv, Drained, Filled;
      Yield(round, data);
      if length - misoIndex <= LEVEL {
        MisoIrqHandler(data);
      }
      if |tx| < 8 {
        MosiIrqHandler(data);
      }
    }

    method Yield(round: Round, ghost data: seq<bv8>)
      requires Between(View(), data)
      modifies this, buffer
      ensures Between(View(), data) && View() == Yielded(old(View()), round)
    {
      hide Inv, Drained, Filled, ClockedOne;
      if round.mosiIrq {
        MosiIrqHandler(data);
      }
      ghost var filled := View();
      for i := 0 to |round.incoming|
        invariant Between(View(), data)
        invariant Clocked(View(), round.incoming[i..]) == Clocked(filled, round.incoming)
      {
        Clock(round.incoming[i], data);
      }
      if round.misoIrq {
        MisoIrqHandler(data);
      }
    }
  }
}
