/** Numbers as little-endian bytes. */
module LittleEndian {
  function Bit(on: bool, weight: bv8): bv8 { if on then weight else 0 }

  function Weight(on: bool, weight: nat): nat { if on then weight else 0 }

  function Byte(b0: bool, b1: bool, b2: bool, b3: bool, b4: bool, b5: bool, b6: bool, b7: bool): bv8 {
    Bit(b0, 1) | Bit(b1, 2) | Bit(b2, 4) | Bit(b3, 8) | Bit(b4, 16) | Bit(b5, 32) | Bit(b6, 64) | Bit(b7, 128)
  }

  function Half(n: nat): nat { n / 2 }

  function High(n: nat): nat { n / 256 }

  function Low(n: nat): nat { n % 256 }

  predicate IsOdd(n: nat) { n % 2 == 1 }

  // The byte of a number below 256.
  function ToByte(n: nat): bv8 {
    var h1 := Half(n);
    var h2 := Half(h1);
    var h3 := Half(h2);
    var h4 := Half(h3);
    var h5 := Half(h4);
    var h6 := Half(h5);
    var h7 := Half(h6);
    Byte(IsOdd(n), IsOdd(h1), IsOdd(h2), IsOdd(h3), IsOdd(h4), IsOdd(h5), IsOdd(h6), IsOdd(h7))
  }

  function Value(b: bv8): nat {
    Weight(b & 1 != 0, 1) + Weight(b & 2 != 0, 2) + Weight(b & 4 != 0, 4) + Weight(b & 8 != 0, 8) +
    Weight(b & 16 != 0, 16) + Weight(b & 32 != 0, 32) + Weight(b & 64 != 0, 64) + Weight(b & 128 != 0, 128)
  }

  lemma ByteBits(b0: bool, b1: bool, b2: bool, b3: bool, b4: bool, b5: bool, b6: bool, b7: bool, b: bv8)
    requires b == Byte(b0, b1, b2, b3, b4, b5, b6, b7)
    ensures b0 == (b & 1 != 0) && b1 == (b & 2 != 0) && b2 == (b & 4 != 0) && b3 == (b & 8 != 0)
    ensures b4 == (b & 16 != 0) && b5 == (b & 32 != 0) && b6 == (b & 64 != 0) && b7 == (b & 128 != 0)
  {}

  lemma Halve(n: nat, half: nat, weight: nat)
    requires half == Half(n)
    ensures n * weight == half * (2 * weight) + Weight(IsOdd(n), weight)
    ensures n < 2 ==> half == 0
  {
    assert n == 2 * half + n % 2;
  }

  lemma Digits(n: nat, h1: nat, h2: nat, h3: nat, h4: nat, h5: nat, h6: nat, h7: nat)
    requires n < 256 && h1 == Half(n) && h2 == Half(h1) && h3 == Half(h2) && h4 == Half(h3)
    requires h5 == Half(h4) && h6 == Half(h5) && h7 == Half(h6)
    ensures n == Weight(IsOdd(n), 1) + Weight(IsOdd(h1), 2) + Weight(IsOdd(h2), 4) + Weight(IsOdd(h3), 8) +
                 Weight(IsOdd(h4), 16) + Weight(IsOdd(h5), 32) + Weight(IsOdd(h6), 64) + Weight(IsOdd(h7), 128)
  {
    hide *;
    Halve(n, h1, 1);
    Halve(h1, h2, 2);
    Halve(h2, h3, 4);
    Halve(h3, h4, 8);
    Halve(h4, h5, 16);
    Halve(h5, h6, 32);
    Halve(h6, h7, 64);
    Halve(h7, Half(h7), 128);
  }

  lemma ByteRoundTrip(n: nat)
    requires n < 256
    ensures Value(ToByte(n)) == n
  {
    var h1 := Half(n);
    var h2 := Half(h1);
    var h3 := Half(h2);
    var h4 := Half(h3);
    var h5 := Half(h4);
    var h6 := Half(h5);
    var h7 := Half(h6);
    hide Byte, Weight, IsOdd, Half;
    Digits(n, h1, h2, h3, h4, h5, h6, h7);
    ByteBits(IsOdd(n), IsOdd(h1), IsOdd(h2), IsOdd(h3), IsOdd(h4), IsOdd(h5), IsOdd(h6), IsOdd(h7), ToByte(n));
  }

  // struct.pack('<I', n)
  function Pack(n: nat): (bytes: seq<bv8>)
    ensures |bytes| == 4
  {
    var q1 := High(n);
    var q2 := High(q1);
    var q3 := High(q2);
    [ToByte(Low(n)), ToByte(Low(q1)), ToByte(Low(q2)), ToByte(Low(q3))]
  }

  function Unpack(bytes: seq<bv8>): nat
    requires |bytes| == 4
  {
    Value(bytes[0]) + 256 * (Value(bytes[1]) + 256 * (Value(bytes[2]) + 256 * Value(bytes[3])))
  }

  lemma Split(n: nat)
    ensures n == Low(n) + 256 * High(n) && Low(n) < 256
    ensures n < 256 ==> High(n) == 0
  {}

  lemma PackRoundTrip(n: nat)
    requires n < 0x1_0000_0000
    ensures Unpack(Pack(n)) == n
  {
    var q1 := High(n);
    var q2 := High(q1);
    var q3 := High(q2);
    hide ToByte, Value;
    Split(n);
    Split(q1);
    Split(q2);
    Split(q3);
    hide High, Low;
    ByteRoundTrip(Low(n));
    ByteRoundTrip(Low(q1));
    ByteRoundTrip(Low(q2));
    ByteRoundTrip(Low(q3));
  }
}
