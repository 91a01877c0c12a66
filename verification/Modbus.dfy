/** The Modbus RTU master of warp/modbus.c with the interrupt handlers of warp/rs485.c and the request
    building of warp/meter.c, as functions on a record of the RS485 context. */
module Modbus {
  import opened Wrappers
  import opened Ringbuffers
  import opened Clock
  import opened LittleEndian
  import Crc16

  datatype Mode = Plain | Master | Slave

  datatype Wire = Idle | Receiving | Transmitting

  datatype RequestState = Ready | Waiting | Processing

  datatype Request = Request(
    id: nat, state: RequestState, cbInvoke: bool, timedOut: bool, timeRef: nat, length: nat)

  // The counters of RS485ModbusCommonErrorCounters, 32 bits each.
  datatype Counters = Counters(
    timeout: nat, checksum: nat, frameTooBig: nat,
    illegalFunction: nat, illegalAddress: nat, illegalValue: nat, deviceFailure: nat)

  datatype Bus = Bus(
    mode: Mode, rx: Ring, tx: Ring, wire: Wire, txDone: bool, time4Chars: nat, lastLength: nat,
    request: Request, counters: Counters, timeoutPeriod: nat)

  const FRAME_SIZE_MAX := 256
  const WAIT_AFTER_READ_MS := 5

  predicate BusValid(b: Bus) {
    // The receive ring has a place for every data byte of the longest response (it takes 158 places to hold
    // the response with its checksum as well), the transmit ring holds the longest request.
    Valid(b.rx) && Valid(b.tx) && b.rx.size >= 155 && b.tx.size >= 14
  }

  function Bump(counter: nat): nat { (counter + 1) % WORD }

  // ----- Interrupts ---------------------------------------------------------------------------------

  function ReceiveAll(rx: Ring, bytes: seq<bv8>): (after: Ring)
    requires Valid(rx)
    ensures Valid(after) && after.size == rx.size && after.start == rx.start
    decreases |bytes|
  {
    if bytes == [] then rx else
    RxEnqueueRefines(rx, bytes[0]);
    ReceiveAll(RxEnqueue(rx, bytes[0]), bytes[1..])
  }

  // rs485_rx_irq_handler with these bytes in the hardware FIFO.
  function RxInterrupt(b: Bus, bytes: seq<bv8>, now: nat): Bus
    requires Valid(b.rx)
  {
    b.(rx := ReceiveAll(b.rx, bytes), time4Chars := now)
  }

  // rs485_tx_irq_handler with room for this many bytes in the hardware FIFO.
  function TxInterrupt(b: Bus, room: nat): Bus
    requires Valid(b.tx)
  {
    b.(tx := Remove(b.tx, room), txDone := b.txDone || room > Used(b.tx))
  }

  // What it hands to the hardware.
  function Transmitted(b: Bus, room: nat): seq<bv8>
    requires Valid(b.tx)
  {
    Items(b.tx)[..Min(Used(b.tx), room)]
  }

  // ----- Requests -------------------------------------------------------------------------------------

  // modbus_clear_request
  function ClearRequest(b: Bus): Bus {
    b.(rx := Reset(b.rx), tx := Reset(b.tx), lastLength := 0, wire := Idle,
       request := b.request.(id := (b.request.id + 1) % 256, length := 0, cbInvoke := false, timedOut := false,
                             state := Ready))
  }

  // modbus_init_new_request
  function InitNewRequest(b: Bus, state: RequestState, length: nat): Bus {
    b.(request := b.request.(id := if b.request.id == 255 then 1 else b.request.id + 1, state := state,
                             length := length,
                             cbInvoke := b.mode != Master && b.request.cbInvoke))
  }

  function Store(tx: Ring, bytes: seq<bv8>): (after: Ring)
    requires Valid(tx)
    ensures Valid(after) && after.size == tx.size && after.start == tx.start
    decreases |bytes|
  {
    if bytes == [] then tx else
    AddRefines(tx, bytes[0]);
    Store(Add(tx, bytes[0]).0, bytes[1..])
  }

  // modbus_add_tx_frame_checksum: the checksum of as many bytes from the start of memory as the ring holds.
  function AddChecksum(tx: Ring): (after: Ring)
    requires Valid(tx)
    ensures Valid(after) && after.size == tx.size
  {
    var crc := Crc16.Crc(tx.memory[..Used(tx)]);
    Store(tx, [Crc16.LowByte(crc), Crc16.HighByte(crc)])
  }

  // modbus_start_tx
  function StartTx(b: Bus, responseLength: nat, now: nat): Bus
    requires Valid(b.tx)
  {
    var c := InitNewRequest(b.(tx := AddChecksum(b.tx)), Waiting, responseLength);
    c.(request := c.request.(timeRef := now), wire := Transmitting)
  }

  // A payload of the transmit ring, stored and sent.
  function Send(b: Bus, payload: seq<bv8>, responseLength: nat, now: nat): Bus
    requires Valid(b.tx)
  {
    StartTx(b.(tx := Store(b.tx, payload)), responseLength, now)
  }

  const READ_HOLDING: bv8 := 3
  const READ_INPUT: bv8 := 4
  const WRITE_SINGLE: bv8 := 6
  const WRITE_MULTIPLE: bv8 := 16

  function Short(n: nat): seq<bv8> { [ToByte(n / 256 % 256), ToByte(n % 256)] }

  // Definitions use one-based register numbers, the wire zero-based addresses.
  function Header(slave: bv8, fc: bv8, register: nat): (bytes: seq<bv8>)
    ensures |bytes| == 4 && bytes[0] == slave && bytes[1] == fc
  {
    [slave, fc] + Short((register - 1) % 65536)
  }

  function ReadPayload(fc: bv8, slave: bv8, register: nat, count: nat): seq<bv8> {
    Header(slave, fc, register) + Short(count)
  }

  // meter_read_registers
  function ReadRegisters(b: Bus, fc: bv8, slave: bv8, register: nat, count: nat, now: nat): Bus
    requires Valid(b.tx)
  {
    Send(b, ReadPayload(fc, slave, register, count), 10, now)
  }

  // A 32-bit register value, most significant byte first.
  datatype Word = Word(b3: bv8, b2: bv8, b1: bv8, b0: bv8)

  function WritePayload(fc: bv8, slave: bv8, register: nat, value: Word): (bytes: seq<bv8>)
    ensures 4 <= |bytes| <= 11 && bytes[0] == slave && bytes[1] == fc
  {
    Header(slave, fc, register) +
    (if fc == WRITE_MULTIPLE then Short(2) + [4] + [value.b3, value.b2] + [value.b1, value.b0]
     else if fc == WRITE_SINGLE then [value.b1, value.b0] else [])
  }

  // meter_write_register
  function WriteRegister(b: Bus, fc: bv8, slave: bv8, register: nat, value: Word, now: nat): Bus
    requires Valid(b.tx)
  {
    Send(b, WritePayload(fc, slave, register, value), 13, now)
  }

  // ----- Checks on a response ---------------------------------------------------------------------

  // modbus_check_frame_checksum
  predicate ChecksumOk(b: Bus)
    requires Valid(b.rx) && b.lastLength <= b.rx.size
  {
    Crc16.Accepted(b.rx.memory[..b.lastLength])
  }

  // Compared as integers, so a function code of 0x80 or more has no exception code.
  predicate IsExceptionOf(answered: bv8, asked: bv8) {
    asked < 0x80 && answered == asked + 0x80
  }

  // modbus_master_check_slave_response
  predicate ResponseOk(b: Bus)
    requires BusValid(b)
  {
    b.rx.memory[0] == b.tx.memory[0] &&
    (b.rx.memory[1] == b.tx.memory[1] || IsExceptionOf(b.rx.memory[1], b.tx.memory[1]))
  }

  // ----- The wire state machine ---------------------------------------------------------------------

  datatype WireEvent =
    | Nothing
    | Expired        // no response within the timeout
    | Sampled        // bytes have arrived, note how many
    | TooBig
    | BadChecksum
    | BadResponse
    | Answered       // hand the response to the driver
    | Settled        // the line has been quiet for long enough
    | Sent

  function IdleEvent(b: Bus, now: nat): WireEvent
    requires BusValid(b) && b.wire == Idle && b.lastLength <= b.rx.size
  {
    if b.mode != Master || b.request.state != Waiting then Nothing
    else if Elapsed(now, b.request.timeRef, b.timeoutPeriod) && !b.request.timedOut then Expired
    else if Used(b.rx) > 0 && Used(b.rx) > b.lastLength then Sampled
    else if Used(b.rx) > 0 && Used(b.rx) == b.lastLength then
      if Used(b.rx) > FRAME_SIZE_MAX && !b.request.timedOut then TooBig
      else if !ChecksumOk(b) && !b.request.timedOut then BadChecksum
      else if !ResponseOk(b) && !b.request.timedOut then BadResponse
      else Answered
    else Nothing
  }

  function EventOf(b: Bus, now: nat): WireEvent
    requires BusValid(b) && b.lastLength <= b.rx.size
  {
    match b.wire
    case Idle => IdleEvent(b, now)
    case Receiving => if Elapsed(now, b.time4Chars, WAIT_AFTER_READ_MS) then Settled else Nothing
    case Transmitting => if b.txDone then Sent else Nothing
  }

  // The driver is called back with the timed-out flag.
  function Fail(b: Bus): Bus {
    b.(counters := b.counters.(timeout := Bump(b.counters.timeout)),
       request := b.request.(cbInvoke := true, timedOut := true))
  }

  function Handle(b: Bus, event: WireEvent): Bus
    requires BusValid(b)
  {
    match event
    case Nothing => b
    case Expired => Fail(b)
    case Sampled => b.(wire := Receiving, lastLength := Used(b.rx))
    case TooBig => var c := Fail(b); c.(counters := c.counters.(frameTooBig := Bump(c.counters.frameTooBig)))
    case BadChecksum => var c := Fail(b); c.(counters := c.counters.(checksum := Bump(c.counters.checksum)))
    case BadResponse => Fail(b)
    case Answered => b.(request := b.request.(cbInvoke := true))
    case Settled => b.(wire := Idle)
    case Sent =>
      // A broadcast has no response to wait for.
      b.(txDone := false, wire := Idle,
         request := b.request.(cbInvoke := b.request.cbInvoke || (b.mode == Master && b.tx.memory[0] == 0)))
  }

  // modbus_update_rtu_wire_state_machine
  function WireTick(b: Bus, now: nat): Bus
    requires BusValid(b) && b.lastLength <= b.rx.size
  {
    Handle(b, EventOf(b, now))
  }

  // The bytes that rs485_tick finds in the hardware FIFO.
  function Drain(b: Bus, bytes: seq<bv8>, now: nat): (after: Bus)
    requires BusValid(b)
    ensures BusValid(after)
  {
    if bytes == [] then b else RxInterrupt(b, bytes, now)
  }

  // rs485_tick
  function Rs485Tick(b: Bus, bytes: seq<bv8>, now: nat): Bus
    requires BusValid(b) && b.lastLength <= b.rx.size
  {
    var c := Drain(b, bytes, now);
    if c.mode == Plain then c else WireTick(c, now)
  }

  // ----- The driver's view ----------------------------------------------------------------------------

  // meter_is_response_ready
  predicate ResponseReady(b: Bus, fc: bv8)
    requires BusValid(b)
  {
    b.mode == Master && b.request.state == Waiting && b.tx.memory[1] == fc && b.request.cbInvoke
  }

  predicate IsException(b: Bus)
    requires BusValid(b)
  {
    IsExceptionOf(b.rx.memory[1], b.tx.memory[1])
  }

  predicate HasError(b: Bus)
    requires BusValid(b)
  {
    b.request.timedOut || IsException(b)
  }

  // The counter that meter_has_errors bumps for an exception response.
  function NoteException(b: Bus): Bus
    requires BusValid(b)
  {
    if b.request.timedOut || !IsException(b) then b else
    var c := b.counters;
    var code := b.rx.memory[2];
    b.(counters :=
         if code == 1 then c.(illegalFunction := Bump(c.illegalFunction))
         else if code == 2 then c.(illegalAddress := Bump(c.illegalAddress))
         else if code == 3 then c.(illegalValue := Bump(c.illegalValue))
         else if code == 4 then c.(deviceFailure := Bump(c.deviceFailure))
         else c)
  }

  // meter_reset_error_counter leaves the checksum and frame-size counters.
  function ResetCounters(b: Bus): Bus {
    b.(counters := b.counters.(illegalFunction := 0, illegalAddress := 0, illegalValue := 0, deviceFailure := 0,
                               timeout := 0))
  }

  // The i-th 32-bit value of a response.
  function ResponseWord(b: Bus, i: nat): Word
    requires BusValid(b) && i < 38
  {
    Word(b.rx.memory[3 + 4 * i], b.rx.memory[4 + 4 * i], b.rx.memory[5 + 4 * i], b.rx.memory[6 + 4 * i])
  }

  // ----- Boot ---------------------------------------------------------------------------------------

  // modbus_init on freshly initialised rings.
  predicate Boots(b: Bus) {
    BusValid(b) && b.rx == Reset(b.rx) && b.tx == Reset(b.tx) && b.wire == Idle && !b.txDone && b.lastLength == 0 &&
    b.request.state == Ready && !b.request.cbInvoke && !b.request.timedOut && b.request.id == 1 &&
    b.request.length == 0 &&
    b.counters == Counters(0, 0, 0, 0, 0, 0, 0)
  }
}
