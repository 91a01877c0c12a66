/** The two CRC-16 routines of utility/crc16.c: each table-driven loop against bit-by-bit polynomial
    division, and what the Modbus checksum guarantees about frames. */
module Crc16 {
  import opened Bits
  import opened Division
  import opened Register16

  // ----- Bitwise reference ------------------------------------------------------------------

  // Section 6.2.2 of MODBUS over Serial Line V1.02: exclusive-or each byte into the low half, then
  // eight division steps.
  function CrcFrom(c: bv16, message: seq<bv8>): bv16 {
    if message == [] then c
    else Steps(CrcFrom(c, message[..|message| - 1]) ^ message[|message| - 1] as bv16, 8)
  }

  // The register starts at all ones.
  function Crc(message: seq<bv8>): bv16 {
    CrcFrom(0xFFFF, message)
  }

  // Eight division steps written out.
  function Step8(c: bv16): bv16 {
    var c1 := (c >> 1) ^ (0xA001 & (0 - (c & 1)));
    var c2 := (c1 >> 1) ^ (0xA001 & (0 - (c1 & 1)));
    var c3 := (c2 >> 1) ^ (0xA001 & (0 - (c2 & 1)));
    var c4 := (c3 >> 1) ^ (0xA001 & (0 - (c3 & 1)));
    var c5 := (c4 >> 1) ^ (0xA001 & (0 - (c4 & 1)));
    var c6 := (c5 >> 1) ^ (0xA001 & (0 - (c5 & 1)));
    var c7 := (c6 >> 1) ^ (0xA001 & (0 - (c6 & 1)));
    (c7 >> 1) ^ (0xA001 & (0 - (c7 & 1)))
  }

  lemma StepsEight(c: bv16)
    ensures Steps(c, 8) == Step8(c)
  {
    assert Steps(c, 8) == Steps(Step(Step(c)), 6);
    assert Steps(Step(Step(c)), 6) == Steps(Step(Step(Step(Step(c)))), 4);
  }

  // ----- The table ----------------------------------------------------------------------------

  function Column(column: bv8, v0: bv16, v1: bv16, v2: bv16, v3: bv16, v4: bv16, v5: bv16, v6: bv16, v7: bv16,
                  v8: bv16, v9: bv16, v10: bv16, v11: bv16, v12: bv16, v13: bv16, v14: bv16, v15: bv16): bv16 {
    if column & 8 == 0 then
      if column & 4 == 0 then
        if column & 2 == 0 then (if column & 1 == 0 then v0 else v1) else (if column & 1 == 0 then v2 else v3)
      else
        if column & 2 == 0 then (if column & 1 == 0 then v4 else v5) else (if column & 1 == 0 then v6 else v7)
    else
      if column & 4 == 0 then
        if column & 2 == 0 then (if column & 1 == 0 then v8 else v9) else (if column & 1 == 0 then v10 else v11)
      else
        if column & 2 == 0 then (if column & 1 == 0 then v12 else v13) else (if column & 1 == 0 then v14 else v15)
  }

  // crc16_modbus_table, sixteen entries to a row.
  function ModbusTable(index: bv8): bv16 {
    Column(index >> 4,
      Column(index, 0x0000, 0xC0C1, 0xC181, 0x0140, 0xC301, 0x03C0, 0x0280, 0xC241,
             0xC601, 0x06C0, 0x0780, 0xC741, 0x0500, 0xC5C1, 0xC481, 0x0440),
      Column(index, 0xCC01, 0x0CC0, 0x0D80, 0xCD41, 0x0F00, 0xCFC1, 0xCE81, 0x0E40,
             0x0A00, 0xCAC1, 0xCB81, 0x0B40, 0xC901, 0x09C0, 0x0880, 0xC841),
      Column(index, 0xD801, 0x18C0, 0x1980, 0xD941, 0x1B00, 0xDBC1, 0xDA81, 0x1A40,
             0x1E00, 0xDEC1, 0xDF81, 0x1F40, 0xDD01, 0x1DC0, 0x1C80, 0xDC41),
      Column(index, 0x1400, 0xD4C1, 0xD581, 0x1540, 0xD701, 0x17C0, 0x1680, 0xD641,
             0xD201, 0x12C0, 0x1380, 0xD341, 0x1100, 0xD1C1, 0xD081, 0x1040),
      Column(index, 0xF001, 0x30C0, 0x3180, 0xF141, 0x3300, 0xF3C1, 0xF281, 0x3240,
             0x3600, 0xF6C1, 0xF781, 0x3740, 0xF501, 0x35C0, 0x3480, 0xF441),
      Column(index, 0x3C00, 0xFCC1, 0xFD81, 0x3D40, 0xFF01, 0x3FC0, 0x3E80, 0xFE41,
             0xFA01, 0x3AC0, 0x3B80, 0xFB41, 0x3900, 0xF9C1, 0xF881, 0x3840),
      Column(index, 0x2800, 0xE8C1, 0xE981, 0x2940, 0xEB01, 0x2BC0, 0x2A80, 0xEA41,
             0xEE01, 0x2EC0, 0x2F80, 0xEF41, 0x2D00, 0xEDC1, 0xEC81, 0x2C40),
      Column(index, 0xE401, 0x24C0, 0x2580, 0xE541, 0x2700, 0xE7C1, 0xE681, 0x2640,
             0x2200, 0xE2C1, 0xE381, 0x2340, 0xE101, 0x21C0, 0x2080, 0xE041),
      Column(index, 0xA001, 0x60C0, 0x6180, 0xA141, 0x6300, 0xA3C1, 0xA281, 0x6240,
             0x6600, 0xA6C1, 0xA781, 0x6740, 0xA501, 0x65C0, 0x6480, 0xA441),
      Column(index, 0x6C00, 0xACC1, 0xAD81, 0x6D40, 0xAF01, 0x6FC0, 0x6E80, 0xAE41,
             0xAA01, 0x6AC0, 0x6B80, 0xAB41, 0x6900, 0xA9C1, 0xA881, 0x6840),
      Column(index, 0x7800, 0xB8C1, 0xB981, 0x7940, 0xBB01, 0x7BC0, 0x7A80, 0xBA41,
             0xBE01, 0x7EC0, 0x7F80, 0xBF41, 0x7D00, 0xBDC1, 0xBC81, 0x7C40),
      Column(index, 0xB401, 0x74C0, 0x7580, 0xB541, 0x7700, 0xB7C1, 0xB681, 0x7640,
             0x7200, 0xB2C1, 0xB381, 0x7340, 0xB101, 0x71C0, 0x7080, 0xB041),
      Column(index, 0x5000, 0x90C1, 0x9181, 0x5140, 0x9301, 0x53C0, 0x5280, 0x9241,
             0x9601, 0x56C0, 0x5780, 0x9741, 0x5500, 0x95C1, 0x9481, 0x5440),
      Column(index, 0x9C01, 0x5CC0, 0x5D80, 0x9D41, 0x5F00, 0x9FC1, 0x9E81, 0x5E40,
             0x5A00, 0x9AC1, 0x9B81, 0x5B40, 0x9901, 0x59C0, 0x5880, 0x9841),
      Column(index, 0x8801, 0x48C0, 0x4980, 0x8941, 0x4B00, 0x8BC1, 0x8A81, 0x4A40,
             0x4E00, 0x8EC1, 0x8F81, 0x4F40, 0x8D01, 0x4DC0, 0x4C80, 0x8C41),
      Column(index, 0x4400, 0x84C1, 0x8581, 0x4540, 0x8701, 0x47C0, 0x4680, 0x8641,
             0x8201, 0x42C0, 0x4380, 0x8341, 0x4100, 0x81C1, 0x8081, 0x4040))
  }

  lemma ModbusTableEntry(index: bv8)
    ensures ModbusTable(index) == Step8(index as bv16)
  {}

  // Only the low byte decides what is subtracted during eight steps.
  lemma LowByteDecides(c: bv16)
    ensures Step8(c) == (c >> 8) ^ Step8(c & 0xFF)
  {}

  lemma TableStepParts(w: bv16, high: bv16, low: bv16, index: bv8, entry: bv16)
    requires high == w >> 8 && low == w & 0xFF && low == index as bv16 && entry == ModbusTable(index)
    ensures Step8(w) == high ^ entry
  {
    LowByteDecides(w);
    ModbusTableEntry(index);
    hide *;
  }

  // A byte moves through the register in eight division steps or in one table look-up.
  lemma {:induction false} TableStep(c: bv16, byte: bv8, index: bv8, w: bv16, next: bv16)
    requires index == byte ^ (c & 0xFF) as bv8 && w == c ^ byte as bv16
    requires next == (c >> 8) ^ ModbusTable(index)
    ensures next == Steps(w, 8)
  {
    hide *;
    var high, low, entry := w >> 8, w & 0xFF, ModbusTable(index);
    assert high == c >> 8;
    assert low == index as bv16;
    TableStepParts(w, high, low, index, entry);
    StepsEight(w);
  }

  lemma CrcExtend(start: bv16, message: seq<bv8>, byte: bv8, c: bv16, w: bv16)
    requires c == CrcFrom(start, message) && w == c ^ byte as bv16
    ensures CrcFrom(start, message + [byte]) == Steps(w, 8)
  {
    hide Steps;
    assert (message + [byte])[..|message|] == message;
  }

  // crc16_modbus: one table look-up a byte.
  method Crc16Modbus(buffer: array<bv8>, start: nat, length: nat) returns (crc: bv16)
    requires start + length <= buffer.Length
    ensures crc == Crc(buffer[start..start + length])
  {
    hide ModbusTable, CrcFrom, Steps;
    crc := 0xFFFF;
    CrcOfEmpty();
    var position, remaining := start, length;
    assert buffer[start..position] == [];
    while remaining > 0
      invariant remaining >= 0 && start <= position && position + remaining == start + length
      invariant crc == Crc(buffer[start..position])
    {
      remaining := remaining - 1;
      ghost var before, byte := crc, buffer[position];
      var tmp := buffer[position] ^ (crc & 0xFF) as bv8;
      assert buffer[start..position + 1] == buffer[start..position] + [byte];
      position := position + 1;
      crc := crc >> 8;
      crc := crc ^ ModbusTable(tmp);
      ghost var w := before ^ byte as bv16;
      TableStep(before, byte, tmp, w, crc);
      CrcExtend(0xFFFF, buffer[start..position - 1], byte, before, w);
    }
  }

  lemma CrcOfEmpty()
    ensures Crc([]) == 0xFFFF
  {}

  // ----- The checksum as a remainder ------------------------------------------------------------

  lemma {:induction false} ByteRegister(w: bv16, byte: bv8, n: nat)
    requires w == byte as bv16
    ensures Register(w, n) == LowBits(byte, n)
    decreases n
  {
    if n != 0 {
      assert w & 1 == 1 <==> byte & 1 == 1;
      var w1, half := w >> 1, byte >> 1;
      assert w1 == half as bv16;
      ByteRegister(w1, half, n - 1);
    }
  }

  lemma {:induction false} PaddedByte(byte: bv8, n: nat, k: nat)
    requires Bits.Fits(byte, n)
    ensures LowBits(byte, n + k) == LowBits(byte, n) + Zeros(k)
    decreases n + k
  {
    if n != 0 {
      PaddedByte(byte >> 1, n - 1, k);
    } else if k != 0 {
      assert byte >> 1 == 0;
      PaddedByte(byte >> 1, 0, k - 1);
      assert LowBits(byte, 0 + k) == [false] + LowBits(byte >> 1, k - 1);
    }
  }

  lemma ByteBitsAre(byte: bv8, bits: seq<bool>)
    requires bits == LowBits(byte, 8)
    ensures bits == ByteBits(byte)
  {}

  lemma FedAtOnce(before: seq<bool>, mixed: seq<bool>, bits: seq<bool>, after: seq<bool>)
    requires |before| == 16 == |POLY| && |bits| == 8
    requires mixed == Difference(before, bits + Zeros(8)) && after == Shifts(POLY, mixed, 8)
    ensures after == FeedAll(POLY, before, bits)
  {
    hide *;
    FeedAtOnce(POLY, before, bits);
  }

  // Eight division steps on register and byte together feed the byte's bits to the division.
  lemma {:induction false} ByteFed(c: bv16, byte: bv8, w: bv16)
    requires w == c ^ byte as bv16
    ensures Register(Steps(w, 8), 16) == FeedAll(POLY, Register(c, 16), ByteBits(byte))
  {
    ByteFits(byte);
    hide *;
    var wide := byte as bv16;
    var before, mixed, bits := Register(c, 16), Register(w, 16), LowBits(byte, 8);
    StepsAreShifts(w, 8);
    XorIsDifference(c, wide, w, 16);
    ByteRegister(wide, byte, 16);
    PaddedByte(byte, 8, 8);
    PolyFacts();
    FedAtOnce(before, mixed, bits, Register(Steps(w, 8), 16));
    ByteBitsAre(byte, bits);
  }

  lemma RemainderExtends(register: seq<bool>, front: seq<bv8>, byte: bv8, mid: seq<bool>)
    requires |register| == 16 == |POLY| && mid == FeedAll(POLY, register, BitsOf(front))
    ensures FeedAll(POLY, register, BitsOf(front + [byte])) == FeedAll(POLY, mid, ByteBits(byte))
  {
    assert BitsOf([byte]) == ByteBits(byte) + BitsOf([]) == ByteBits(byte);
    hide *;
    BitsOfAppend(front, [byte]);
    FeedAppend(POLY, register, BitsOf(front), ByteBits(byte));
  }

  lemma EmptyRemainder(c: bv16)
    ensures CrcFrom(c, []) == c && BitsOf([]) == []
    ensures FeedAll(POLY, Register(c, 16), []) == Register(c, 16)
  {}

  lemma {:induction false} CrcIsRemainder(c: bv16, message: seq<bv8>, after: bv16)
    requires after == CrcFrom(c, message)
    ensures Register(after, 16) == FeedAll(POLY, Register(c, 16), BitsOf(message))
  {
    hide *;
    PolyFacts();
    if message == [] {
      EmptyRemainder(c);
    } else {
      var front, byte := message[..|message| - 1], message[|message| - 1];
      assert front + [byte] == message;
      var before := CrcFrom(c, front);
      CrcIsRemainder(c, front, before);
      var w := before ^ byte as bv16;
      CrcExtend(c, front, byte, before, w);
      ByteFed(before, byte, w);
      RemainderExtends(Register(c, 16), front, byte, Register(before, 16));
    }
  }

  // ----- Frames -----------------------------------------------------------------------------------

  function LowByte(c: bv16): bv8 { (c & 0xFF) as bv8 }

  function HighByte(c: bv16): bv8 { (c >> 8) as bv8 }

  // The checksum follows the payload, low byte first.
  function WithCrc(payload: seq<bv8>): (frame: seq<bv8>) {
    payload + [LowByte(Crc(payload)), HighByte(Crc(payload))]
  }

  // modbus_check_frame_checksum on a received frame.
  predicate Accepted(frame: seq<bv8>) {
    |frame| >= 2 &&
    var crc := Crc(frame[..|frame| - 2]);
    frame[|frame| - 2] == LowByte(crc) && frame[|frame| - 1] == HighByte(crc)
  }

  lemma {:induction false} OwnFrameAccepted(payload: seq<bv8>)
    ensures Accepted(WithCrc(payload))
  {
    hide CrcFrom;
    var frame := WithCrc(payload);
    assert frame[..|frame| - 2] == payload;
  }

  lemma ByteKernel(low: bv16, part: bv16)
    requires low & 0xFF00 == 0 && part == Step8(low)
    ensures part & 0xFF00 == 0 <==> low == 0
    ensures low == 0 ==> part == 0
  {}

  lemma StepKernel(c: bv16, next: bv16)
    requires next == Step(c)
    ensures next == 0 <==> c == 0
  {}

  lemma {:induction false} StepsKernel(c: bv16, n: nat)
    ensures Steps(c, n) == 0 <==> c == 0
    decreases n
  {
    hide Step;
    if n != 0 {
      var next := Step(c);
      StepKernel(c, next);
      StepsKernel(next, n - 1);
    }
  }

  lemma TwoBytesArithmetic(c: bv16, low: bv8, w: bv16, part: bv16, mid: bv16, high: bv8)
    requires w == c ^ low as bv16 && mid == (w >> 8) ^ part
    requires part & 0xFF00 == 0 <==> w & 0xFF == 0
    requires w & 0xFF == 0 ==> part == 0
    ensures mid ^ high as bv16 == 0 <==> low == LowByte(c) && high == HighByte(c)
  {}

  lemma {:induction false} TwoBytes(c: bv16, low: bv8, w: bv16, mid: bv16, high: bv8, v: bv16)
    requires w == c ^ low as bv16 && mid == Steps(w, 8) && v == mid ^ high as bv16
    ensures Steps(v, 8) == 0 <==> low == LowByte(c) && high == HighByte(c)
  {
    StepsEight(w);
    LowByteDecides(w);
    hide *;
    var half := w & 0xFF;
    var part := Step8(half);
    ByteKernel(half, part);
    TwoBytesArithmetic(c, low, w, part, mid, high);
    StepsKernel(v, 8);
  }

  // Comparing the two checksum bytes is the same as asking for remainder zero over the whole frame.
  lemma {:induction false} AcceptedIsZeroResidue(frame: seq<bv8>)
    ensures Accepted(frame) <==> |frame| >= 2 && Crc(frame) == 0
  {
    hide CrcFrom, Steps;
    if |frame| >= 2 {
      var n := |frame| - 2;
      var payload, low, high := frame[..n], frame[n], frame[n + 1];
      var c := Crc(payload);
      var w := c ^ low as bv16;
      CrcExtend(0xFFFF, payload, low, c, w);
      var mid := Steps(w, 8);
      assert payload + [low] == frame[..n + 1];
      var v := mid ^ high as bv16;
      CrcExtend(0xFFFF, frame[..n + 1], high, mid, v);
      assert frame[..n + 1] + [high] == frame;
      TwoBytes(c, low, w, mid, high, v);
    }
  }

  // ----- Error detection --------------------------------------------------------------------------

  // The error pattern between two accepted frames of one length divides without remainder.
  lemma {:induction false} AcceptedPair(f: seq<bv8>, g: seq<bv8>)
    requires |f| == |g| && Accepted(f) && Accepted(g)
    ensures AllFalse(FeedAll(POLY, Zeros(16), Difference(BitsOf(f), BitsOf(g))))
  {
    hide Register, CrcFrom, Difference, FeedAll, BitsOf;
    AcceptedIsZeroResidue(f);
    AcceptedIsZeroResidue(g);
    CrcIsRemainder(0xFFFF, f, 0);
    CrcIsRemainder(0xFFFF, g, 0);
    var ones, zero := Register(0xFFFF, 16), Register(0, 16);
    FeedAllLinear(POLY, ones, ones, BitsOf(f), BitsOf(g));
    assert Difference(ones, ones) == Zeros(16);
    assert AllFalse(Difference(zero, zero));
  }

  // No odd number of bit errors turns an accepted frame into an accepted frame.
  lemma {:induction false} OddErrorsDetected(f: seq<bv8>, g: seq<bv8>)
    requires |f| == |g| && Accepted(f) && Accepted(g)
    ensures Count(Difference(BitsOf(f), BitsOf(g))) % 2 == 0
  {
    hide CrcFrom, FeedAll, BitsOf, Difference;
    AcceptedPair(f, g);
    PolyFacts();
    var bits := Difference(BitsOf(f), BitsOf(g));
    FeedAllOdd(POLY, Zeros(16), bits);
    CountOfZeros(Zeros(16));
    CountOfZeros(FeedAll(POLY, Zeros(16), bits));
  }

  // No change confined to 16 consecutive bits turns an accepted frame into another accepted frame.
  lemma {:induction false} BurstsDetected(f: seq<bv8>, g: seq<bv8>)
    requires |f| == |g| && Accepted(f) && Accepted(g) && f != g
    ensures !Confined(Difference(BitsOf(f), BitsOf(g)), 16)
  {
    hide CrcFrom, FeedAll, BitsOf, Difference;
    AcceptedPair(f, g);
    DifferentBits(f, g);
    PolyFacts();
    var bits := Difference(BitsOf(f), BitsOf(g));
    var i :| 0 <= i < |bits| && BitsOf(f)[i] != BitsOf(g)[i];
    assert bits[i];
    if Confined(bits, 16) {
      var low: nat :| ConfinedFrom(bits, low, 16);
      BurstRemainder(POLY, Zeros(16), bits, low);
    }
  }

  // ----- CCITT ------------------------------------------------------------------------------------

  // One step of the division by x^16 + x^12 + x^5 + 1, highest bit first: the bit shifted out is
  // subtracted at the places of the polynomial.
  function CcittStep(c: bv16): bv16 { (c << 1) ^ CcittPart(c >> 15) }

  function CcittPart(top: bv16): bv16 { (top << 12) ^ (top << 5) ^ top }

  function CcittStep4(c: bv16): bv16 {
    CcittStep(CcittStep(CcittStep(CcittStep(c))))
  }

  function CcittStep8(c: bv16): bv16 {
    CcittStep4(CcittStep4(c))
  }

  // Exclusive-or each byte into the high half, then eight steps; the register starts at zero.
  function Ccitt(message: seq<bv8>): bv16 {
    if message == [] then 0
    else CcittStep8(Ccitt(message[..|message| - 1]) ^ (message[|message| - 1] as bv16 << 8))
  }

  // crc16_ccitt_table, sixteen entries to a row.
  function CcittTable(index: bv8): bv16 {
    Column(index >> 4,
      Column(index, 0x0000, 0x1021, 0x2042, 0x3063, 0x4084, 0x50A5, 0x60C6, 0x70E7,
             0x8108, 0x9129, 0xA14A, 0xB16B, 0xC18C, 0xD1AD, 0xE1CE, 0xF1EF),
      Column(index, 0x1231, 0x0210, 0x3273, 0x2252, 0x52B5, 0x4294, 0x72F7, 0x62D6,
             0x9339, 0x8318, 0xB37B, 0xA35A, 0xD3BD, 0xC39C, 0xF3FF, 0xE3DE),
      Column(index, 0x2462, 0x3443, 0x0420, 0x1401, 0x64E6, 0x74C7, 0x44A4, 0x5485,
             0xA56A, 0xB54B, 0x8528, 0x9509, 0xE5EE, 0xF5CF, 0xC5AC, 0xD58D),
      Column(index, 0x3653, 0x2672, 0x1611, 0x0630, 0x76D7, 0x66F6, 0x5695, 0x46B4,
             0xB75B, 0xA77A, 0x9719, 0x8738, 0xF7DF, 0xE7FE, 0xD79D, 0xC7BC),
      Column(index, 0x48C4, 0x58E5, 0x6886, 0x78A7, 0x0840, 0x1861, 0x2802, 0x3823,
             0xC9CC, 0xD9ED, 0xE98E, 0xF9AF, 0x8948, 0x9969, 0xA90A, 0xB92B),
      Column(index, 0x5AF5, 0x4AD4, 0x7AB7, 0x6A96, 0x1A71, 0x0A50, 0x3A33, 0x2A12,
             0xDBFD, 0xCBDC, 0xFBBF, 0xEB9E, 0x9B79, 0x8B58, 0xBB3B, 0xAB1A),
      Column(index, 0x6CA6, 0x7C87, 0x4CE4, 0x5CC5, 0x2C22, 0x3C03, 0x0C60, 0x1C41,
             0xEDAE, 0xFD8F, 0xCDEC, 0xDDCD, 0xAD2A, 0xBD0B, 0x8D68, 0x9D49),
      Column(index, 0x7E97, 0x6EB6, 0x5ED5, 0x4EF4, 0x3E13, 0x2E32, 0x1E51, 0x0E70,
             0xFF9F, 0xEFBE, 0xDFDD, 0xCFFC, 0xBF1B, 0xAF3A, 0x9F59, 0x8F78),
      Column(index, 0x9188, 0x81A9, 0xB1CA, 0xA1EB, 0xD10C, 0xC12D, 0xF14E, 0xE16F,
             0x1080, 0x00A1, 0x30C2, 0x20E3, 0x5004, 0x4025, 0x7046, 0x6067),
      Column(index, 0x83B9, 0x9398, 0xA3FB, 0xB3DA, 0xC33D, 0xD31C, 0xE37F, 0xF35E,
             0x02B1, 0x1290, 0x22F3, 0x32D2, 0x4235, 0x5214, 0x6277, 0x7256),
      Column(index, 0xB5EA, 0xA5CB, 0x95A8, 0x8589, 0xF56E, 0xE54F, 0xD52C, 0xC50D,
             0x34E2, 0x24C3, 0x14A0, 0x0481, 0x7466, 0x6447, 0x5424, 0x4405),
      Column(index, 0xA7DB, 0xB7FA, 0x8799, 0x97B8, 0xE75F, 0xF77E, 0xC71D, 0xD73C,
             0x26D3, 0x36F2, 0x0691, 0x16B0, 0x6657, 0x7676, 0x4615, 0x5634),
      Column(index, 0xD94C, 0xC96D, 0xF90E, 0xE92F, 0x99C8, 0x89E9, 0xB98A, 0xA9AB,
             0x5844, 0x4865, 0x7806, 0x6827, 0x18C0, 0x08E1, 0x3882, 0x28A3),
      Column(index, 0xCB7D, 0xDB5C, 0xEB3F, 0xFB1E, 0x8BF9, 0x9BD8, 0xABBB, 0xBB9A,
             0x4A75, 0x5A54, 0x6A37, 0x7A16, 0x0AF1, 0x1AD0, 0x2AB3, 0x3A92),
      Column(index, 0xFD2E, 0xED0F, 0xDD6C, 0xCD4D, 0xBDAA, 0xAD8B, 0x9DE8, 0x8DC9,
             0x7C26, 0x6C07, 0x5C64, 0x4C45, 0x3CA2, 0x2C83, 0x1CE0, 0x0CC1),
      Column(index, 0xEF1F, 0xFF3E, 0xCF5D, 0xDF7C, 0xAF9B, 0xBFBA, 0x8FD9, 0x9FF8,
             0x6E17, 0x7E36, 0x4E55, 0x5E74, 0x2E93, 0x3EB2, 0x0ED1, 0x1EF0))
  }

  lemma CcittTableEntry(index: bv8)
    ensures CcittTable(index) == CcittStep8(index as bv16 << 8)
  {}

  lemma CcittStepParts(c: bv16, moved: bv16, top: bv16, part: bv16, next: bv16)
    requires moved == c << 1 && top == c >> 15 && part == CcittPart(top) && next == CcittStep(c)
    ensures next == moved ^ part
  {}

  lemma HighestBit(high: bv16, low: bv16, w: bv16)
    requires w == high ^ low && low & 0x8000 == 0
    ensures w >> 15 == high >> 15
  {}

  lemma DoubleOfXor(high: bv16, low: bv16, w: bv16, moved: bv16, highMoved: bv16, wMoved: bv16)
    requires w == high ^ low && moved == low << 1 && highMoved == high << 1 && wMoved == w << 1
    ensures wMoved == highMoved ^ moved
  {}

  lemma SamePart(wMoved: bv16, highMoved: bv16, moved: bv16, part: bv16, high': bv16, w': bv16)
    requires wMoved == highMoved ^ moved && high' == highMoved ^ part && w' == wMoved ^ part
    ensures w' == high' ^ moved
  {}

  // Bits below the highest only move up.
  lemma CcittStepPeels(high: bv16, low: bv16, w: bv16, moved: bv16, high': bv16, w': bv16)
    requires w == high ^ low && low & 0x8000 == 0 && moved == low << 1
    requires high' == CcittStep(high) && w' == CcittStep(w)
    ensures w' == high' ^ moved
  {
    hide *;
    var wMoved, highMoved, top := w << 1, high << 1, high >> 15;
    var part := CcittPart(top);
    HighestBit(high, low, w);
    DoubleOfXor(high, low, w, moved, highMoved, wMoved);
    CcittStepParts(high, highMoved, top, part, high');
    CcittStepParts(w, wMoved, top, part, w');
    SamePart(wMoved, highMoved, moved, part, high', w');
  }

  lemma FourMoves(low: bv16, l1: bv16, l2: bv16, l3: bv16, l4: bv16)
    requires low & 0xF000 == 0 && l1 == low << 1 && l2 == l1 << 1 && l3 == l2 << 1 && l4 == l3 << 1
    ensures l4 == low << 4
    ensures low & 0x8000 == 0 && l1 & 0x8000 == 0 && l2 & 0x8000 == 0 && l3 & 0x8000 == 0
  {}

  lemma CcittStep4Is(c: bv16, c1: bv16, c2: bv16, c3: bv16, c4: bv16)
    requires c1 == CcittStep(c) && c2 == CcittStep(c1) && c3 == CcittStep(c2) && c4 == CcittStep(c3)
    ensures c4 == CcittStep4(c)
  {
    hide CcittStep;
  }

  lemma CcittPeel(high: bv16, low: bv16, w: bv16, moved: bv16, high': bv16, w': bv16)
    requires low & 0xF000 == 0 && w == high ^ low && moved == low << 4
    requires high' == CcittStep4(high) && w' == CcittStep4(w)
    ensures w' == high' ^ moved
  {
    hide *;
    var h1, w1, l1 := CcittStep(high), CcittStep(w), low << 1;
    var h2, w2, l2 := CcittStep(h1), CcittStep(w1), l1 << 1;
    var h3, w3, l3 := CcittStep(h2), CcittStep(w2), l2 << 1;
    var h4, w4, l4 := CcittStep(h3), CcittStep(w3), l3 << 1;
    FourMoves(low, l1, l2, l3, l4);
    CcittStepPeels(high, low, w, l1, h1, w1);
    CcittStepPeels(h1, l1, w1, l2, h2, w2);
    CcittStepPeels(h2, l2, w2, l3, h3, w3);
    CcittStepPeels(h3, l3, w3, l4, h4, w4);
    CcittStep4Is(high, h1, h2, h3, h4);
    CcittStep4Is(w, w1, w2, w3, w4);
  }

  lemma Nibbles(w: bv16, high: bv16, low: bv16, l4: bv16, l8: bv16)
    requires high == w & 0xFF00 && low == w & 0xFF && l4 == low << 4 && l8 == l4 << 4
    ensures w == high ^ low && low & 0xF000 == 0 && l4 & 0xF000 == 0 && l8 == w << 8
  {}

  // Only the high byte decides what is subtracted during eight steps.
  lemma HighByteDecides(w: bv16, high: bv16, low: bv16, moved: bv16, w8: bv16, h8: bv16)
    requires high == w & 0xFF00 && low == w & 0xFF && moved == w << 8
    requires w8 == CcittStep8(w) && h8 == CcittStep8(high)
    ensures w8 == h8 ^ moved
  {
    hide CcittStep4;
    var w4, h4, l4 := CcittStep4(w), CcittStep4(high), low << 4;
    Nibbles(w, high, low, l4, l4 << 4);
    CcittPeel(high, low, w, l4, h4, w4);
    CcittPeel(h4, l4, w4, moved, h8, w8);
  }

  lemma CcittTableStepParts(w: bv16, low: bv16, high: bv16, index: bv8, entry: bv16, next: bv16)
    requires low == w << 8 && high == w & 0xFF00 && index as bv16 << 8 == high
    requires entry == CcittTable(index) && next == low ^ entry
    ensures next == CcittStep8(w)
  {
    hide *;
    CcittTableEntry(index);
    var h8, w8 := CcittStep8(high), CcittStep8(w);
    HighByteDecides(w, high, w & 0xFF, low, w8, h8);
    assert h8 == entry;
  }

  lemma {:induction false} CcittTableStep(c: bv16, byte: bv8, index: bv8, w: bv16, next: bv16)
    requires index == (c >> 8) as bv8 ^ byte && w == c ^ (byte as bv16 << 8)
    requires next == (c << 8) ^ CcittTable(index)
    ensures next == CcittStep8(w)
  {
    hide *;
    var low, high, wide, entry := w << 8, w & 0xFF00, index as bv16 << 8, CcittTable(index);
    assert low == c << 8;
    assert high == wide;
    CcittTableStepParts(w, low, high, index, entry, next);
  }

  lemma CcittExtend(message: seq<bv8>, byte: bv8, c: bv16, w: bv16)
    requires c == Ccitt(message) && w == c ^ (byte as bv16 << 8)
    ensures Ccitt(message + [byte]) == CcittStep8(w)
  {
    hide CcittStep8;
    assert (message + [byte])[..|message|] == message;
  }

  lemma {:induction false} CcittLookup(message: seq<bv8>, byte: bv8, c: bv16, index: bv8, next: bv16)
    requires c == Ccitt(message)
    requires index == (c >> 8) as bv8 ^ byte && next == (c << 8) ^ CcittTable(index)
    ensures next == Ccitt(message + [byte])
  {
    hide *;
    var w := c ^ (byte as bv16 << 8);
    CcittTableStep(c, byte, index, w, next);
    CcittExtend(message, byte, c, w);
  }

  // crc16_ccitt_8in.
  method Ccitt8In(buffer: array<bv8>, length: nat) returns (crc: bv16)
    requires length <= buffer.Length
    ensures crc == Ccitt(buffer[..length])
  {
    hide CcittTable, CcittStep8;
    crc := 0;
    var position, remaining := 0, length;
    while remaining > 0
      invariant remaining >= 0 && 0 <= position && position + remaining == length
      invariant crc == Ccitt(buffer[..position])
    {
      remaining := remaining - 1;
      var value := buffer[position];
      ghost var before := crc;
      assert buffer[..position + 1] == buffer[..position] + [value];
      position := position + 1;
      var index := (crc >> 8) as bv8 ^ value;
      crc := (crc << 8) ^ CcittTable(index);
      CcittLookup(buffer[..position - 1], value, before, index, crc);
    }
  }

  // Sixteen-bit words as bytes, high byte first.
  function BigEndian(words: seq<bv16>): (bytes: seq<bv8>) {
    if words == [] then []
    else BigEndian(words[..|words| - 1]) + [HighByte(words[|words| - 1]), LowByte(words[|words| - 1])]
  }

  // crc16_ccitt_16in: two look-ups a word, high byte first.
  method Ccitt16In(buffer: array<bv16>, length: nat) returns (crc: bv16)
    requires length <= buffer.Length
    ensures crc == Ccitt(BigEndian(buffer[..length]))
  {
    hide CcittTable, CcittStep8, Ccitt;
    crc := 0;
    CcittOfEmpty();
    var position, remaining := 0, length;
    while remaining > 0
      invariant remaining >= 0 && 0 <= position && position + remaining == length
      invariant crc == Ccitt(BigEndian(buffer[..position]))
    {
      remaining := remaining - 1;
      var value := buffer[position];
      ghost var bytes, c0 := BigEndian(buffer[..position]), crc;
      assert buffer[..position + 1][..position] == buffer[..position];
      position := position + 1;
      var high, low := HighByte(value), LowByte(value);
      var index := (crc >> 8) as bv8 ^ high;
      crc := (crc << 8) ^ CcittTable(index);
      CcittLookup(bytes, high, c0, index, crc);
      ghost var c1 := crc;
      index := (crc >> 8) as bv8 ^ low;
      crc := (crc << 8) ^ CcittTable(index);
      CcittLookup(bytes + [high], low, c1, index, crc);
      assert bytes + [high] + [low] == bytes + [high, low] == BigEndian(buffer[..position]);
    }
  }

  lemma CcittOfEmpty()
    ensures Ccitt([]) == 0
  {}
}
