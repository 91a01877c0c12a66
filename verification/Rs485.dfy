/** The RS485 context as warp/modbus.c, warp/rs485.c and warp/meter.c update it in place. */
module Rs485Context {
  import opened Wrappers
  import opened Ringbuffers
  import opened Clock
  import opened LittleEndian
  import opened Modbus
  import Crc16

  lemma {:induction false} StoreConcat(tx: Ring, a: seq<bv8>, b: seq<bv8>)
    requires Valid(tx)
    ensures Store(tx, a + b) == Store(Store(tx, a), b)
    decreases |a|
  {
    if a == [] {
      assert a + b == b;
    } else {
      AddRefines(tx, a[0]);
      assert (a + b)[0] == a[0] && (a + b)[1..] == a[1..] + b;
      StoreConcat(Add(tx, a[0]).0, a[1..], b);
    }
  }

  lemma StoreOne(tx: Ring, b: bv8)
    requires Valid(tx)
    ensures Store(tx, [b]) == Add(tx, b).0
  {
    AddRefines(tx, b);
    assert Store(Add(tx, b).0, [b][1..]) == Add(tx, b).0;
  }

  lemma {:induction false} ReceiveOneMore(rx: Ring, a: seq<bv8>, b: bv8)
    requires Valid(rx)
    ensures ReceiveAll(rx, a + [b]) == RxEnqueue(ReceiveAll(rx, a), b)
    decreases |a|
  {
    if a == [] {
      RxEnqueueRefines(rx, b);
      assert a + [b] == [b] && ReceiveAll(RxEnqueue(rx, b), [b][1..]) == RxEnqueue(rx, b);
    } else {
      RxEnqueueRefines(rx, a[0]);
      assert (a + [b])[0] == a[0] && (a + [b])[1..] == a[1..] + [b];
      ReceiveOneMore(RxEnqueue(rx, a[0]), a[1..], b);
    }
  }

  // Taking one byte after removing k is removing k + 1.
  lemma TakeAfterRemove(r: Ring, k: nat)
    requires Valid(r) && k <= Used(r)
    ensures Valid(Remove(r, k)) && Used(Remove(r, k)) == Used(r) - k
    ensures k < Used(r) ==> Get(Remove(r, k)) == (Remove(r, k + 1), Some(Items(r)[k]))
    ensures k == Used(r) ==> Get(Remove(r, k)) == (Remove(r, k), None)
  {}

  lemma ReceiveNone(rx: Ring)
    requires Valid(rx)
    ensures ReceiveAll(rx, []) == rx
  {}

  lemma StoreNone(tx: Ring)
    requires Valid(tx)
    ensures Store(tx, []) == tx
  {}

  lemma RemoveNone(r: Ring)
    requires Valid(r)
    ensures Remove(r, 0) == r
  {}

  lemma RemoveAll(r: Ring, n: nat)
    requires Valid(r) && n >= Used(r)
    ensures Remove(r, n) == Remove(r, Used(r))
  {}

  class Rs485 {
    var mode: Mode
    const rx: Ringbuffer
    const tx: Ringbuffer
    var wire: Wire
    var txDone: bool
    var time4Chars: nat
    var lastLength: nat
    var request: Request
    var counters: Counters
    const timeoutPeriod: nat

    ghost function Repr(): set<object> {
      {this, rx, rx.buffer, tx, tx.buffer}
    }

    ghost function View(): Bus
      reads Repr()
    {
      Bus(mode, rx.View(), tx.View(), wire, txDone, time4Chars, lastLength,
          request, counters, timeoutPeriod)
    }

    ghost predicate IsValid()
      reads Repr()
    {
      rx != tx && rx.buffer != tx.buffer && BusValid(View()) && lastLength <= rx.size
    }

    // modbus_init
    constructor (rxSize: nat, txSize: nat, timeout: nat, now: nat)
      requires 155 <= rxSize <= 32768 && 14 <= txSize <= 32768
      ensures IsValid() && fresh(Repr())
      ensures Boots(View()) && View().mode == Master && View().time4Chars == now && View().timeoutPeriod == timeout
    {
      rx := new Ringbuffer(rxSize);
      tx := new Ringbuffer(txSize);
      mode, wire, txDone, time4Chars, lastLength := Master, Idle, false, now, 0;
      request := Request(1, Ready, false, false, 0, 0);
      counters := Counters(0, 0, 0, 0, 0, 0, 0);
      timeoutPeriod := timeout;
    }

    // ----- modbus.c -------------------------------------------------------------------------------

    method InitRings()
      requires IsValid()
      modifies rx, tx
      ensures IsValid() && View() == old(View()).(rx := Reset(old(View()).rx), tx := Reset(old(View()).tx))
    {
      rx.Init();
      tx.Init();
    }

    method ClearRequest()
      requires IsValid()
      modifies this, rx, tx
      ensures IsValid() && View() == old(Modbus.ClearRequest(View()))
    {
      request := request.(id := (request.id + 1) % 256);
      InitRings();
      lastLength := 0;
      wire := Idle;
      request := request.(length := 0, cbInvoke := false, timedOut := false, state := Ready);
    }

    method InitNewRequest(newState: RequestState, newLength: nat)
      requires IsValid()
      modifies this
      ensures IsValid() && View() == old(Modbus.InitNewRequest(View(), newState, newLength))
      ensures request.id != 0 && request.id != old(request.id)
    {
      if request.id == 255 {
        request := request.(id := 1);
      } else {
        request := request.(id := request.id + 1);
      }
      request := request.(state := newState, length := newLength);
      if mode == Master {
        request := request.(cbInvoke := false);
      }
    }

    method CheckFrameChecksum() returns (ok: bool)
      requires IsValid()
      ensures ok == ChecksumOk(View())
    {
      if lastLength < 2 {
        return false;
      }
      var checksum := Crc16.Crc16Modbus(rx.buffer, 0, lastLength - 2);
      hide Crc16.Crc, Crc16.LowByte, Crc16.HighByte;
      ghost var frame := View().rx.memory[..lastLength];
      assert frame[..lastLength - 2] == rx.buffer[0..lastLength - 2];
      return rx.buffer[lastLength - 2] == Crc16.LowByte(checksum) &&
             rx.buffer[lastLength - 1] == Crc16.HighByte(checksum);
    }

    method CheckSlaveResponse() returns (ok: bool)
      requires IsValid()
      ensures ok == ResponseOk(View())
    {
      if rx.buffer[0] != tx.buffer[0] {
        return false;
      }
      if rx.buffer[1] != tx.buffer[1] {
        if !IsExceptionOf(rx.buffer[1], tx.buffer[1]) {
          return false;
        }
      }
      return true;
    }

    method RaiseTimeout()
      requires IsValid()
      modifies this
      ensures IsValid() && View() == old(Fail(View()))
    {
      counters := counters.(timeout := Bump(counters.timeout));
      request := request.(cbInvoke := true, timedOut := true);
    }

    // modbus_update_rtu_wire_state_machine in the IDLE state.
    method UpdateIdle(now: nat)
      requires IsValid() && wire == Idle
      modifies this
      ensures IsValid() && View() == old(WireTick(View(), now))
    {
      hide Items, ChecksumOk, ResponseOk, Elapsed, Bump;
      if mode == Master {
        if request.state == Waiting && Elapsed(now, request.timeRef, timeoutPeriod) && !request.timedOut {
          RaiseTimeout();
          return;
        }
        var used := rx.GetUsed();
        if request.state == Waiting && used > 0 && used > lastLength {
          wire := Receiving;
          lastLength := used;
          return;
        }
        if request.state == Waiting && used > 0 && used == lastLength {
          if used > FRAME_SIZE_MAX && !request.timedOut {
            RaiseTimeout();
            counters := counters.(frameTooBig := Bump(counters.frameTooBig));
            return;
          }
          var checksumOk := CheckFrameChecksum();
          if !checksumOk && !request.timedOut {
            RaiseTimeout();
            counters := counters.(checksum := Bump(counters.checksum));
            return;
          }
          var responseOk := CheckSlaveResponse();
          if !responseOk && !request.timedOut {
            RaiseTimeout();
            return;
          }
          request := request.(cbInvoke := true);
        }
      }
    }

    method Update(now: nat)
      requires IsValid()
      modifies this
      ensures IsValid() && View() == old(WireTick(View(), now))
    {
      if wire == Idle {
        UpdateIdle(now);
      } else if wire == Receiving {
        if Elapsed(now, time4Chars, WAIT_AFTER_READ_MS) {
          wire := Idle;
        }
      } else {
        if txDone {
          txDone := false;
          wire := Idle;
          if mode == Master && tx.buffer[0] == 0 {
            request := request.(cbInvoke := true);
          }
        }
      }
    }

    // ----- rs485.c --------------------------------------------------------------------------------

    // The loop over the hardware FIFO.
    method DrainFifo(fifo: seq<bv8>)
      requires IsValid()
      modifies rx, rx.buffer
      ensures IsValid() && View() == old(View()).(rx := ReceiveAll(old(View()).rx, fifo))
    {
      ghost var ring := View().rx;
      hide ReceiveAll, RxEnqueue, Queue, Push;
      ReceiveNone(ring);
      for i := 0 to |fifo|
        invariant IsValid() && rx.View() == ReceiveAll(ring, fifo[..i])
        invariant View() == old(View()).(rx := rx.View())
      {
        ReceiveOneMore(ring, fifo[..i], fifo[i]);
        assert fifo[..i] + [fifo[i]] == fifo[..i + 1];
        rx.Receive(fifo[i]);
      }
      assert fifo[..|fifo|] == fifo;
    }

    method RxIrqHandler(fifo: seq<bv8>, now: nat)
      requires IsValid()
      modifies this, rx, rx.buffer
      ensures IsValid() && View() == old(RxInterrupt(View(), fifo, now))
    {
      DrainFifo(fifo);
      time4Chars := now;
    }

    method TxIrqHandler(room: nat) returns (out: seq<bv8>)
      requires IsValid()
      modifies this, tx
      ensures IsValid() && View() == old(TxInterrupt(View(), room))
      ensures out == old(Transmitted(View(), room))
    {
      out := [];
      ghost var ring, k := View().tx, 0;
      var free := room;
      hide Items, Remove, Get;
      RemoveNone(ring);
      while free > 0
        invariant 0 <= free && k == room - free && k <= Used(ring)
        invariant IsValid() && View() == old(View()).(tx := Remove(ring, k))
        invariant out == Items(ring)[..k]
      {
        TakeAfterRemove(ring, k);
        var data := tx.Take();
        if data.None? {
          txDone := true;
          RemoveAll(ring, room);
          return;
        }
        out := out + [data.value];
        free := free - 1;
        k := k + 1;
      }
    }

    method Tick(fifo: seq<bv8>, now: nat)
      requires IsValid()
      modifies Repr()
      ensures IsValid() && View() == old(Rs485Tick(View(), fifo, now))
    {
      hide ReceiveAll, WireTick;
      ReceiveNone(View().rx);
      var newData := fifo != [];
      DrainFifo(fifo);
      if newData {
        time4Chars := now;
      }
      if mode == Slave || mode == Master {
        Update(now);
      }
    }

    // ----- Requests of meter.c ----------------------------------------------------------------------

    // modbus_store_tx_frame_data_bytes
    method StoreBytes(data: seq<bv8>)
      requires IsValid()
      modifies tx, tx.buffer
      ensures IsValid() && View() == old(View()).(tx := Store(old(View()).tx, data))
    {
      ghost var ring := View().tx;
      hide Store, Add, Queue, Push;
      StoreNone(ring);
      for i := 0 to |data|
        invariant IsValid() && tx.View() == Store(ring, data[..i])
        invariant View() == old(View()).(tx := tx.View())
      {
        StoreConcat(ring, data[..i], [data[i]]);
        StoreOne(tx.View(), data[i]);
        assert data[..i] + [data[i]] == data[..i + 1];
        var ok := tx.Append(data[i]);
      }
      assert data[..|data|] == data;
    }

    // modbus_store_tx_frame_data_shorts for one value
    method StoreShort(value: nat)
      requires IsValid()
      modifies tx, tx.buffer
      ensures IsValid() && View() == old(View()).(tx := Store(old(View()).tx, Short(value)))
    {
      StoreBytes([ToByte(value / 256 % 256), ToByte(value % 256)]);
    }

    // modbus_add_tx_frame_checksum
    method StoreChecksum()
      requires IsValid()
      modifies tx, tx.buffer
      ensures IsValid() && View() == old(View()).(tx := Modbus.AddChecksum(old(View()).tx))
    {
      hide Store, Crc16.Crc, Crc16.LowByte, Crc16.HighByte, Items;
      var used := tx.GetUsed();
      var checksum := Crc16.Crc16Modbus(tx.buffer, 0, used);
      assert tx.buffer[0..used] == tx.View().memory[..used];
      StoreBytes([Crc16.LowByte(checksum), Crc16.HighByte(checksum)]);
    }

    // modbus_store_tx_header
    method StoreHeader(slave: bv8, fc: bv8, register: nat)
      requires IsValid()
      modifies tx, tx.buffer
      ensures IsValid() && View() == old(View()).(tx := Store(old(View()).tx, Header(slave, fc, register)))
    {
      hide Store, Short;
      ghost var ring := View().tx;
      StoreBytes([slave]);
      StoreBytes([fc]);
      var address := (register - 1) % 65536;
      StoreShort(address);
      StoreConcat(ring, [slave], [fc]);
      assert [slave] + [fc] == [slave, fc];
      StoreConcat(ring, [slave, fc], Short(address));
    }

    // modbus_start_tx; the transmit interrupt it triggers is an event of its own.
    method StartTransmission(responseLength: nat, now: nat)
      requires IsValid()
      modifies Repr()
      ensures IsValid() && View() == old(StartTx(View(), responseLength, now))
    {
      hide Modbus.AddChecksum;
      StoreChecksum();
      InitNewRequest(Waiting, responseLength);
      request := request.(timeRef := now);
      wire := Transmitting;
    }

    // meter_read_registers
    method ReadRegisters(fc: bv8, slave: bv8, register: nat, count: nat, now: nat)
      requires IsValid()
      modifies Repr()
      ensures IsValid() && View() == old(Modbus.ReadRegisters(View(), fc, slave, register, count, now))
    {
      hide Store, Short, Header, StartTx;
      ghost var ring := View().tx;
      StoreHeader(slave, fc, register);
      StoreShort(count);
      StoreConcat(ring, Header(slave, fc, register), Short(count));
      StartTransmission(10, now);
    }

    // meter_write_register
    method WriteRegister(fc: bv8, slave: bv8, register: nat, value: Word, now: nat)
      requires IsValid()
      modifies Repr()
      ensures IsValid() && View() == old(Modbus.WriteRegister(View(), fc, slave, register, value, now))
    {
      hide Store, Short, Header, StartTx;
      ghost var ring, payload := View().tx, Header(slave, fc, register);
      StoreHeader(slave, fc, register);
      if fc == WRITE_MULTIPLE {
        StoreShort(2);
        StoreConcat(ring, payload, Short(2));
        payload := payload + Short(2);
        StoreBytes([4]);
        StoreConcat(ring, payload, [4]);
        payload := payload + [4];
        StoreBytes([value.b3, value.b2]);
        StoreConcat(ring, payload, [value.b3, value.b2]);
        payload := payload + [value.b3, value.b2];
        StoreBytes([value.b1, value.b0]);
        StoreConcat(ring, payload, [value.b1, value.b0]);
        payload := payload + [value.b1, value.b0];
      } else if fc == WRITE_SINGLE {
        StoreBytes([value.b1, value.b0]);
        StoreConcat(ring, payload, [value.b1, value.b0]);
        payload := payload + [value.b1, value.b0];
      }
      assert payload == WritePayload(fc, slave, register, value);
      StartTransmission(13, now);
    }

    // The exception counters of meter_has_errors.
    method NoteException()
      requires IsValid()
      modifies this
      ensures IsValid() && View() == old(Modbus.NoteException(View()))
    {
      hide Bump;
      if !request.timedOut && IsExceptionOf(rx.buffer[1], tx.buffer[1]) {
        if rx.buffer[2] == 1 {
          counters := counters.(illegalFunction := Bump(counters.illegalFunction));
        } else if rx.buffer[2] == 2 {
          counters := counters.(illegalAddress := Bump(counters.illegalAddress));
        } else if rx.buffer[2] == 3 {
          counters := counters.(illegalValue := Bump(counters.illegalValue));
        } else if rx.buffer[2] == 4 {
          counters := counters.(deviceFailure := Bump(counters.deviceFailure));
        }
      }
    }

    // meter_reset_error_counter
    method ResetErrorCounter()
      requires IsValid()
      modifies this
      ensures IsValid() && View() == old(ResetCounters(View()))
    {
      counters := counters.(illegalFunction := 0, illegalAddress := 0, illegalValue := 0, deviceFailure := 0,
                            timeout := 0);
    }
  }
}
