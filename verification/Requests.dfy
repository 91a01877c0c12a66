/** The requests the meter drivers put on the bus, and that the addressed slave can read them back
    (sections 6.3, 6.4, 6.6 and 6.12 of the MODBUS Application Protocol V1.1b3). */
module Requests {
  import opened Wrappers
  import opened Modbus
  import opened MeterDrivers
  import L = LittleEndian

  datatype Question =
    | Reading(fc: FunctionCode, slave: Slave, register: nat, count: nat)
    | Writing(fc: FunctionCode, slave: Slave, register: nat, value: Word)

  function PayloadOf(q: Question): seq<bv8> {
    match q
    case Reading(fc, slave, register, count) => ReadPayload(CodeOf(fc), AddressOf(slave), register, count)
    case Writing(fc, slave, register, value) => WritePayload(CodeOf(fc), AddressOf(slave), register, value)
  }

  // Register numbers are one-based; a single register holds the low half of a value.
  predicate WellFormed(q: Question) {
    !q.slave.NoSlave? && 1 <= q.register <= 65536 &&
    match q
    case Reading(fc, _, _, count) => (fc.ReadHolding? || fc.ReadInput?) && count < 65536
    case Writing(fc, _, _, value) => fc.WriteMultiple? || (fc.WriteSingle? && value.b3 == 0 && value.b2 == 0)
  }

  // ----- As the slave reads it ------------------------------------------------------------------------

  function Number(high: bv8, low: bv8): nat { L.Value(high) * 256 + L.Value(low) }

  function SlaveOf(address: bv8): Slave {
    if address == 0x01 then Slave01 else if address == 0x21 then Slave21 else NoSlave
  }

  function Understand(p: seq<bv8>): Option<Question> {
    if |p| < 6 then None else
    var slave, register := SlaveOf(p[0]), Number(p[2], p[3]) + 1;
    if p[1] == 3 && |p| == 6 then Some(Reading(ReadHolding, slave, register, Number(p[4], p[5])))
    else if p[1] == 4 && |p| == 6 then Some(Reading(ReadInput, slave, register, Number(p[4], p[5])))
    else if p[1] == 6 && |p| == 6 then Some(Writing(WriteSingle, slave, register, Word(0, 0, p[4], p[5])))
    else if p[1] == 16 && |p| == 11 && Number(p[4], p[5]) == 2 && p[6] == 4 then
      Some(Writing(WriteMultiple, slave, register, Word(p[7], p[8], p[9], p[10])))
    else None
  }

  lemma ShortRoundTrip(n: nat)
    requires n < 65536
    ensures |Short(n)| == 2 && Number(Short(n)[0], Short(n)[1]) == n
  {
    hide L.ToByte, L.Value;
    L.ByteRoundTrip(n / 256);
    L.ByteRoundTrip(n % 256);
  }

  lemma HeaderRoundTrip(slave: Slave, fc: bv8, register: nat)
    requires 1 <= register <= 65536 && !slave.NoSlave?
    ensures var h := Header(AddressOf(slave), fc, register);
            SlaveOf(h[0]) == slave && h[1] == fc && Number(h[2], h[3]) + 1 == register
  {
    hide Number, Short;
    ShortRoundTrip(register - 1);
  }

  // A slave reads exactly what was asked: slave, function, register and count or value.
  lemma RequestRoundTrip(q: Question)
    requires WellFormed(q)
    ensures Understand(PayloadOf(q)) == Some(q)
  {
    hide Number, Short, SlaveOf, AddressOf;
    HeaderRoundTrip(q.slave, CodeOf(q.fc), q.register);
    ShortRoundTrip(2);
    if q.Reading? {
      ShortRoundTrip(q.count);
    }
  }
}
