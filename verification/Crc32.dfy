/** CRC-32 of utility/crc32.c and of the littlefs utilities: a word-at-a-time loop, a nibble-table loop
    and plain bit-by-bit division compute the same checksum. */
module Crc32 {
  import opened Bits
  import opened Division
  import opened Register32

  // ----- Bitwise reference ------------------------------------------------------------------

  // Exclusive-or each byte into the low end of the register, then eight division steps.
  function CrcFrom(c: bv32, message: seq<bv8>): bv32 {
    if message == [] then c
    else Steps(CrcFrom(c, message[..|message| - 1]) ^ message[|message| - 1] as bv32, 8)
  }

  function Complement(c: bv32): bv32 { c ^ 0xFFFFFFFF }

  // Clause 3.2.9 of IEEE Std 802.3-2012: the register starts complemented and is complemented at the end.
  function Checksum(c: bv32, message: seq<bv8>): bv32 {
    Complement(CrcFrom(Complement(c), message))
  }

  lemma CrcExtend(start: bv32, message: seq<bv8>, byte: bv8, c: bv32, w: bv32)
    requires c == CrcFrom(start, message) && w == c ^ byte as bv32
    ensures CrcFrom(start, message + [byte]) == Steps(w, 8)
  {
    hide Steps;
    assert (message + [byte])[..|message|] == message;
  }

  lemma CrcOfNothing(start: bv32)
    ensures CrcFrom(start, []) == start
  {}

  lemma LastByte(a: seq<bv8>, b: seq<bv8>, front: seq<bv8>, byte: bv8)
    requires |b| > 0 && front == b[..|b| - 1] && byte == b[|b| - 1]
    ensures front + [byte] == b && (a + front) + [byte] == a + b
  {}

  lemma {:induction false} CrcAppend(start: bv32, a: seq<bv8>, b: seq<bv8>, mid: bv32, end: bv32)
    requires mid == CrcFrom(start, a) && end == CrcFrom(mid, b)
    ensures CrcFrom(start, a + b) == end
    decreases |b|
  {
    if b == [] {
      assert a + b == a;
    } else {
      hide *;
      var front, byte := b[..|b| - 1], b[|b| - 1];
      LastByte(a, b, front, byte);
      var before := CrcFrom(mid, front);
      CrcAppend(start, a, front, mid, before);
      var w := before ^ byte as bv32;
      CrcExtend(mid, front, byte, before, w);
      CrcExtend(start, a + front, byte, before, w);
    }
  }

  // The checksum of two blocks one after the other is the checksum of their concatenation.
  lemma {:induction false} Chaining(c: bv32, a: seq<bv8>, b: seq<bv8>)
    ensures Checksum(Checksum(c, a), b) == Checksum(c, a + b)
  {
    hide CrcFrom;
    var mid := CrcFrom(Complement(c), a);
    ComplementTwice(mid);
    CrcAppend(Complement(c), a, b, mid, CrcFrom(mid, b));
  }

  lemma ComplementTwice(c: bv32)
    ensures Complement(Complement(c)) == c
  {}

  // ----- Words of bytes ---------------------------------------------------------------------------

  // Four bytes as a little-endian word.
  function Word(b0: bv8, b1: bv8, b2: bv8, b3: bv8): bv32 {
    b0 as bv32 | (b1 as bv32 << 8) | (b2 as bv32 << 16) | (b3 as bv32 << 24)
  }

  // word >> 8 * n
  function DropBytes(w: bv32, n: nat): bv32 {
    if n == 0 then w else if n == 1 then w >> 8 else if n == 2 then w >> 16 else if n == 3 then w >> 24 else 0
  }

  // word & (0xffffffff >> 8 * (4 - n))
  function KeepBytes(w: bv32, n: nat): bv32 {
    if n == 0 then 0 else if n == 1 then w & 0xFF else if n == 2 then w & 0xFFFF else if n == 3 then w & 0xFFFFFF else w
  }

  // The k lowest bits of w are those of b, and what lies above them is `rest`.
  predicate Stacked(w: bv32, b: bv8, rest: bv32, k: nat)
    decreases k
  {
    if k == 0 then w == rest else (w & 1 == 1) == (b & 1 == 1) && Stacked(w >> 1, b >> 1, rest, k - 1)
  }

  lemma StackedUnfold(w: bv32, b: bv8, rest: bv32, k: nat, w1: bv32, b1: bv8, low: bool, n: nat)
    requires k > 0 && Stacked(w, b, rest, k) && w1 == w >> 1 && b1 == b >> 1 && low == (b & 1 == 1)
    ensures Stacked(w1, b1, rest, k - 1)
    ensures Register(w, n + k) == [low] + Register(w1, n + k - 1)
    ensures LowBits(b, k) == [low] + LowBits(b1, k - 1)
  {}

  lemma StackedEmpty(w: bv32, b: bv8, rest: bv32, n: nat)
    requires Stacked(w, b, rest, 0)
    ensures Register(w, n) == LowBits(b, 0) + Register(rest, n)
  {}

  lemma {:induction false} StackedRegister(w: bv32, b: bv8, rest: bv32, k: nat, n: nat)
    requires Stacked(w, b, rest, k)
    ensures Register(w, n + k) == LowBits(b, k) + Register(rest, n)
    decreases k
  {
    hide *;
    if k == 0 {
      StackedEmpty(w, b, rest, n);
    } else {
      var w1, b1, low := w >> 1, b >> 1, b & 1 == 1;
      StackedUnfold(w, b, rest, k, w1, b1, low, n);
      StackedRegister(w1, b1, rest, k - 1, n);
      assert [low] + LowBits(b1, k - 1) + Register(rest, n) == [low] + (LowBits(b1, k - 1) + Register(rest, n));
    }
  }

  lemma StackedByte(w: bv32, b: bv8, rest: bv32)
    requires b == (w & 0xFF) as bv8 && rest == w >> 8
    ensures Stacked(w, b, rest, 8)
  {
    assert Stacked(w >> 6, b >> 6, rest, 2);
    assert Stacked(w >> 4, b >> 4, rest, 4);
    assert Stacked(w >> 2, b >> 2, rest, 6);
  }

  // The lowest byte of a word contributes the lowest register bits.
  lemma TakeByte(w: bv32, b: bv8, rest: bv32, n: nat)
    requires b == (w & 0xFF) as bv8 && rest == w >> 8
    ensures Register(w, n + 8) == ByteBits(b) + Register(rest, n)
  {
    hide Register, Stacked, LowBits;
    StackedByte(w, b, rest);
    StackedRegister(w, b, rest, 8, n);
  }

  lemma WordParts(b0: bv8, b1: bv8, b2: bv8, b3: bv8, w: bv32, w1: bv32, w2: bv32, w3: bv32)
    requires w == Word(b0, b1, b2, b3)
    requires w1 == w >> 8 && w2 == w1 >> 8 && w3 == w2 >> 8
    ensures b0 == (w & 0xFF) as bv8 && b1 == (w1 & 0xFF) as bv8
    ensures b2 == (w2 & 0xFF) as bv8 && b3 == (w3 & 0xFF) as bv8
    ensures w3 >> 8 == 0
  {}

  lemma FourBytes(b0: bv8, b1: bv8, b2: bv8, b3: bv8)
    ensures BitsOf([b0, b1, b2, b3]) == ByteBits(b0) + ByteBits(b1) + ByteBits(b2) + ByteBits(b3)
  {
    hide ByteBits;
    assert [b0, b1, b2, b3][1..] == [b1, b2, b3] && [b1, b2, b3][1..] == [b2, b3] && [b2, b3][1..] == [b3];
    assert BitsOf([b3]) == ByteBits(b3) + BitsOf([]);
    assert BitsOf([b2, b3]) == ByteBits(b2) + BitsOf([b3]);
    assert BitsOf([b1, b2, b3]) == ByteBits(b1) + BitsOf([b2, b3]);
  }

  lemma {:induction false} WordRegister(b0: bv8, b1: bv8, b2: bv8, b3: bv8, w: bv32)
    requires w == Word(b0, b1, b2, b3)
    ensures Register(w, 32) == BitsOf([b0, b1, b2, b3])
  {
    hide *;
    var w1 := w >> 8;
    var w2 := w1 >> 8;
    var w3 := w2 >> 8;
    WordParts(b0, b1, b2, b3, w, w1, w2, w3);
    ByteByByte(b0, b1, b2, b3, w, w1, w2, w3, 0);
  }

  lemma ByteByByte(b0: bv8, b1: bv8, b2: bv8, b3: bv8, w: bv32, w1: bv32, w2: bv32, w3: bv32, w4: bv32)
    requires b0 == (w & 0xFF) as bv8 && w1 == w >> 8
    requires b1 == (w1 & 0xFF) as bv8 && w2 == w1 >> 8
    requires b2 == (w2 & 0xFF) as bv8 && w3 == w2 >> 8
    requires b3 == (w3 & 0xFF) as bv8 && w4 == w3 >> 8
    ensures Register(w, 32) == BitsOf([b0, b1, b2, b3])
  {
    hide *;
    TakeByte(w, b0, w1, 24);
    TakeByte(w1, b1, w2, 16);
    TakeByte(w2, b2, w3, 8);
    TakeByte(w3, b3, w4, 0);
    FourBytes(b0, b1, b2, b3);
  }

  // ----- The checksum as a remainder ------------------------------------------------------------

  lemma FedAtOnce(before: seq<bool>, mixed: seq<bool>, data: seq<bool>, bits: seq<bool>, after: seq<bool>)
    requires |before| == 32 == |POLY| && |bits| <= 32 && data == bits + Zeros(32 - |bits|)
    requires mixed == Difference(before, data) && after == Shifts(POLY, mixed, |bits|)
    ensures after == FeedAll(POLY, before, bits)
  {
    hide *;
    FeedAtOnce(POLY, before, bits);
  }

  // Division steps on register and data word together feed the word's bits to the division.
  lemma {:induction false} WordFed(c: bv32, data: bv32, w: bv32, bits: seq<bool>)
    requires w == c ^ data && |bits| <= 32 && Register(data, 32) == bits + Zeros(32 - |bits|)
    ensures |POLY| == 32 && Register(Steps(w, |bits|), 32) == FeedAll(POLY, Register(c, 32), bits)
  {
    hide *;
    PolyFacts();
    StepsAreShifts(w, |bits|);
    XorIsDifference(c, data, w, 32);
    FedAtOnce(Register(c, 32), Register(w, 32), Register(data, 32), bits, Register(Steps(w, |bits|), 32));
  }

  lemma {:induction false} ByteFed(c: bv32, byte: bv8, wide: bv32, w: bv32)
    requires wide == byte as bv32 && w == c ^ wide
    ensures |POLY| == 32 && Register(Steps(w, 8), 32) == FeedAll(POLY, Register(c, 32), ByteBits(byte))
  {
    hide *;
    assert byte == (wide & 0xFF) as bv8 && wide >> 8 == 0;
    TakeByte(wide, byte, 0, 24);
    ZeroBits(24);
    WordFed(c, wide, w, ByteBits(byte));
  }

  lemma RemainderExtends(register: seq<bool>, front: seq<bv8>, byte: bv8, mid: seq<bool>)
    requires |register| == 32 == |POLY| && mid == FeedAll(POLY, register, BitsOf(front))
    ensures FeedAll(POLY, register, BitsOf(front + [byte])) == FeedAll(POLY, mid, ByteBits(byte))
  {
    assert BitsOf([byte]) == ByteBits(byte) + BitsOf([]) == ByteBits(byte);
    hide *;
    BitsOfAppend(front, [byte]);
    FeedAppend(POLY, register, BitsOf(front), ByteBits(byte));
  }

  lemma EmptyRemainder(c: bv32)
    requires |POLY| == 32
    ensures BitsOf([]) == [] && FeedAll(POLY, Register(c, 32), []) == Register(c, 32)
  {}

  lemma {:induction false} CrcIsRemainder(c: bv32, message: seq<bv8>, after: bv32)
    requires after == CrcFrom(c, message)
    ensures |POLY| == 32 && Register(after, 32) == FeedAll(POLY, Register(c, 32), BitsOf(message))
  {
    hide *;
    PolyFacts();
    if message == [] {
      CrcOfNothing(c);
      EmptyRemainder(c);
    } else {
      var front, byte := message[..|message| - 1], message[|message| - 1];
      assert front + [byte] == message;
      var before, wide := CrcFrom(c, front), byte as bv32;
      CrcIsRemainder(c, front, before);
      var w := before ^ wide;
      CrcExtend(c, front, byte, before, w);
      ByteFed(before, byte, wide, w);
      RemainderExtends(Register(c, 32), front, byte, Register(before, 32));
    }
  }

  lemma {:induction false} EqualRegisters(a: bv32, b: bv32)
    requires Register(a, 32) == Register(b, 32)
    ensures a == b
  {
    hide *;
    AllFit(a);
    AllFit(b);
    SameBits(a, b, 32);
  }

  function ZeroBytes(n: nat): (z: seq<bv8>)
    ensures |z| == n && forall i :: 0 <= i < n ==> z[i] == 0
  {
    seq(n, i => 0)
  }

  lemma {:induction false} ZeroByteBits(n: nat)
    ensures BitsOf(ZeroBytes(n)) == Zeros(8 * n)
  {
    if n != 0 {
      assert ZeroBytes(n)[1..] == ZeroBytes(n - 1);
      ZeroByteBits(n - 1);
      ZeroLowBits(0, 8);
      assert ByteBits(0) == Zeros(8);
    }
  }

  lemma {:induction false} ZeroLowBits(b: bv8, n: nat)
    requires b == 0
    ensures LowBits(b, n) == Zeros(n)
    decreases n
  {
    if n != 0 {
      ZeroLowBits(b >> 1, n - 1);
    }
  }

  // Up to four bytes go through the register as one word, the missing bytes being zero.
  lemma {:induction false} WordStep(c: bv32, message: seq<bv8>, b0: bv8, b1: bv8, b2: bv8, b3: bv8, data: bv32, w: bv32)
    requires |message| <= 4 && message + ZeroBytes(4 - |message|) == [b0, b1, b2, b3]
    requires data == Word(b0, b1, b2, b3) && w == c ^ data
    ensures Steps(w, 8 * |message|) == CrcFrom(c, message)
  {
    hide *;
    WordRegister(b0, b1, b2, b3, data);
    BitsOfAppend(message, ZeroBytes(4 - |message|));
    ZeroByteBits(4 - |message|);
    var stepped, crc := Steps(w, 8 * |message|), CrcFrom(c, message);
    WordFed(c, data, w, BitsOf(message));
    CrcIsRemainder(c, message, crc);
    EqualRegisters(stepped, crc);
  }

  // Different messages of one length and equal checksum differ over more than 32 consecutive bits.
  lemma {:induction false} BurstsDetected(c: bv32, f: seq<bv8>, g: seq<bv8>)
    requires |f| == |g| && f != g && Checksum(c, f) == Checksum(c, g)
    ensures !Confined(Difference(BitsOf(f), BitsOf(g)), 32)
  {
    hide CrcFrom, Register, FeedAll, BitsOf, Difference;
    var start := Complement(c);
    var x, y := CrcFrom(start, f), CrcFrom(start, g);
    ComplementTwice(x);
    ComplementTwice(y);
    var register := Register(start, 32);
    CrcIsRemainder(start, f, x);
    CrcIsRemainder(start, g, y);
    PolyFacts();
    FeedAllLinear(POLY, register, register, BitsOf(f), BitsOf(g));
    assert Difference(register, register) == Zeros(32);
    var bits := Difference(BitsOf(f), BitsOf(g));
    assert AllFalse(FeedAll(POLY, Zeros(32), bits));
    DifferentBits(f, g);
    var i :| 0 <= i < |bits| && BitsOf(f)[i] != BitsOf(g)[i];
    assert bits[i];
    if Confined(bits, 32) {
      var low: nat :| ConfinedFrom(bits, low, 32);
      BurstRemainder(POLY, Zeros(32), bits, low);
    }
  }

  // ----- The word-at-a-time loop --------------------------------------------------------------------

  function WordAt(memory: seq<bv8>, k: nat): bv32
    requires 4 * k + 4 <= |memory|
  {
    Word(memory[4 * k], memory[4 * k + 1], memory[4 * k + 2], memory[4 * k + 3])
  }

  lemma DropOne(b0: bv8, b1: bv8, b2: bv8, b3: bv8, w: bv32, data: bv32)
    requires w == Word(b0, b1, b2, b3) && data == DropBytes(w, 1)
    ensures data == Word(b1, b2, b3, 0)
  {}

  lemma DropTwo(b0: bv8, b1: bv8, b2: bv8, b3: bv8, w: bv32, data: bv32)
    requires w == Word(b0, b1, b2, b3) && data == DropBytes(w, 2)
    ensures data == Word(b2, b3, 0, 0)
  {}

  lemma DropThree(b0: bv8, b1: bv8, b2: bv8, b3: bv8, w: bv32, data: bv32)
    requires w == Word(b0, b1, b2, b3) && data == DropBytes(w, 3)
    ensures data == Word(b3, 0, 0, 0)
  {}

  lemma KeepOne(b0: bv8, b1: bv8, b2: bv8, b3: bv8, w: bv32, data: bv32)
    requires w == Word(b0, b1, b2, b3) && data == KeepBytes(w, 1)
    ensures data == Word(b0, 0, 0, 0)
  {}

  lemma KeepTwo(b0: bv8, b1: bv8, b2: bv8, b3: bv8, w: bv32, data: bv32)
    requires w == Word(b0, b1, b2, b3) && data == KeepBytes(w, 2)
    ensures data == Word(b0, b1, 0, 0)
  {}

  lemma KeepThree(b0: bv8, b1: bv8, b2: bv8, b3: bv8, w: bv32, data: bv32)
    requires w == Word(b0, b1, b2, b3) && data == w & 0xFFFFFF
    ensures data == Word(b0, b1, b2, 0)
  {}

  lemma KeepThreeMask(w: bv32, data: bv32)
    requires data == KeepBytes(w, 3)
    ensures data == w & 0xFFFFFF
  {}

  lemma KeepAll(w: bv32, data: bv32)
    requires data == KeepBytes(w, 4)
    ensures data == w
  {}

  // The upper n bytes of a memory word.
  lemma {:induction false} HeadStep(bytes: seq<bv8>, word: bv32, n: nat, c: bv32, data: bv32, w: bv32)
    requires |bytes| == 4 && word == Word(bytes[0], bytes[1], bytes[2], bytes[3]) && 1 <= n <= 3
    requires data == DropBytes(word, 4 - n) && w == c ^ data
    ensures Steps(w, 8 * n) == CrcFrom(c, bytes[4 - n..])
  {
    hide *;
    var b0, b1, b2, b3 := bytes[0], bytes[1], bytes[2], bytes[3];
    var message := bytes[4 - n..];
    if n == 1 {
      DropThree(b0, b1, b2, b3, word, data);
      assert message + ZeroBytes(3) == [b3, 0, 0, 0];
      WordStep(c, message, b3, 0, 0, 0, data, w);
    } else if n == 2 {
      DropTwo(b0, b1, b2, b3, word, data);
      assert message + ZeroBytes(2) == [b2, b3, 0, 0];
      WordStep(c, message, b2, b3, 0, 0, data, w);
    } else {
      DropOne(b0, b1, b2, b3, word, data);
      assert message + ZeroBytes(1) == [b1, b2, b3, 0];
      WordStep(c, message, b1, b2, b3, 0, data, w);
    }
  }

  // The lower n bytes of a memory word.
  lemma {:induction false} TailStep(bytes: seq<bv8>, word: bv32, n: nat, c: bv32, data: bv32, w: bv32)
    requires |bytes| == 4 && word == Word(bytes[0], bytes[1], bytes[2], bytes[3]) && 1 <= n <= 4
    requires data == KeepBytes(word, n) && w == c ^ data
    ensures Steps(w, 8 * n) == CrcFrom(c, bytes[..n])
  {
    hide *;
    var b0, b1, b2, b3 := bytes[0], bytes[1], bytes[2], bytes[3];
    var message := bytes[..n];
    if n == 1 {
      KeepOne(b0, b1, b2, b3, word, data);
      assert message + ZeroBytes(3) == [b0, 0, 0, 0];
      WordStep(c, message, b0, 0, 0, 0, data, w);
    } else if n == 2 {
      KeepTwo(b0, b1, b2, b3, word, data);
      assert message + ZeroBytes(2) == [b0, b1, 0, 0];
      WordStep(c, message, b0, b1, 0, 0, data, w);
    } else if n == 3 {
      KeepThreeMask(word, data);
      KeepThree(b0, b1, b2, b3, word, data);
      assert message + ZeroBytes(1) == [b0, b1, b2, 0];
      WordStep(c, message, b0, b1, b2, 0, data, w);
    } else {
      KeepAll(word, data);
      assert message + ZeroBytes(0) == [b0, b1, b2, b3];
      WordStep(c, message, b0, b1, b2, b3, data, w);
    }
  }

  lemma StepOnce(c: bv32, next: bv32, n: nat)
    requires n > 0 && next == if c & 1 == 1 then (c >> 1) ^ 0xEDB88320 else c >> 1
    ensures Steps(c, n) == Steps(next, n - 1)
  {
    StepCases(c);
  }

  // Mix in a word that holds the given number of bytes and take their division steps.
  function FeedWord(crc: bv32, data: bv32, bytes: nat): bv32 {
    Steps(crc ^ data, 8 * bytes)
  }

  // _crc32_ieee_802_3_recalculate_bytes_helper
  method RecalculateBytesHelper(data: bv32, start: bv32, bytes: nat) returns (crc: bv32)
    requires bytes <= 4
    ensures crc == FeedWord(start, data, bytes)
  {
    hide Steps;
    crc := start ^ data;
    var bit := 8 * bytes;
    ghost var all := Steps(crc, bit);
    while bit > 0
      invariant 0 <= bit <= 8 * bytes
      invariant Steps(crc, bit) == all
    {
      ghost var before := crc;
      if crc & 1 == 1 {
        crc := (crc >> 1) ^ 0xEDB88320;
      } else {
        crc := crc >> 1;
      }
      StepOnce(before, crc, bit);
      bit := bit - 1;
    }
    NoSteps(crc);
  }

  lemma NoSteps(c: bv32)
    ensures Steps(c, 0) == c
  {}

  // Memory of whole words holds the whole word of each of its addresses.
  lemma WordFits(data: nat, size: nat)
    requires data < size && size % 4 == 0
    ensures data < 4 * (data / 4) + 4 <= size
  {}

  // The bytes that actually enter the checksum. A block of one to three bytes is taken from the upper
  // end of the word it starts in.
  function BytesRead(memory: seq<bv8>, data: nat, length: nat): (bytes: seq<bv8>)
    requires data + length <= |memory| && |memory| % 4 == 0
    ensures |bytes| == length
  {
    if 0 < length < 4 then
      WordFits(data, |memory|);
      var end := 4 * (data / 4) + 4;
      memory[end - length..end]
    else
      memory[data..data + length]
  }

  lemma CrcSlices(start: bv32, memory: seq<bv8>, from: nat, mid: nat, to: nat, c: bv32, d: bv32)
    requires from <= mid <= to <= |memory| && c == CrcFrom(start, memory[from..mid])
    requires d == CrcFrom(c, memory[mid..to])
    ensures d == CrcFrom(start, memory[from..to])
  {
    hide *;
    CrcAppend(start, memory[from..mid], memory[mid..to], c, d);
    assert memory[from..mid] + memory[mid..to] == memory[from..to];
  }

  lemma WordAtSlice(memory: seq<bv8>, k: nat, word: bv32, bytes: seq<bv8>)
    requires 4 * k + 4 <= |memory| && word == WordAt(memory, k) && bytes == memory[4 * k..4 * k + 4]
    ensures word == Word(bytes[0], bytes[1], bytes[2], bytes[3])
  {
    hide Word;
  }

  lemma {:induction false} HeadAdvance(memory: seq<bv8>, k: nat, n: nat, init: bv32, word: bv32, data: bv32,
                                       after: bv32)
    requires 4 * k + 4 <= |memory| && 1 <= n <= 3 && word == WordAt(memory, k)
    requires data == DropBytes(word, 4 - n) && after == FeedWord(init, data, n)
    ensures after == CrcFrom(init, memory[4 * k + 4 - n..4 * k + 4])
  {
    var w := init ^ data;
    assert after == Steps(w, 8 * n) by { hide Steps, WordAt, Word, CrcFrom, DropBytes; }
    hide *;
    var bytes := memory[4 * k..4 * k + 4];
    WordAtSlice(memory, k, word, bytes);
    HeadStep(bytes, word, n, init, data, w);
    assert bytes[4 - n..] == memory[4 * k + 4 - n..4 * k + 4];
  }

  lemma {:induction false} TailAdvance(memory: seq<bv8>, from: nat, k: nat, n: nat, init: bv32, before: bv32,
                                       word: bv32, data: bv32, after: bv32)
    requires 4 * k + 4 <= |memory| && from <= 4 * k && 1 <= n <= 4 && word == WordAt(memory, k)
    requires before == CrcFrom(init, memory[from..4 * k])
    requires data == KeepBytes(word, n) && after == FeedWord(before, data, n)
    ensures after == CrcFrom(init, memory[from..4 * k + n])
  {
    var w := before ^ data;
    assert after == Steps(w, 8 * n) by { hide Steps, WordAt, Word, CrcFrom, KeepBytes; }
    hide *;
    var bytes := memory[4 * k..4 * k + 4];
    WordAtSlice(memory, k, word, bytes);
    TailStep(bytes, word, n, before, data, w);
    assert bytes[..n] == memory[4 * k..4 * k + n];
    CrcSlices(init, memory, from, 4 * k, 4 * k + n, before, after);
  }

  lemma BytesReadIs(memory: seq<bv8>, data: nat, length: nat, from: nat)
    requires data + length <= |memory| && |memory| % 4 == 0
    requires from == if 0 < length < 4 then 4 * (data / 4) + 4 - length else data
    ensures from + length <= |memory|
    ensures BytesRead(memory, data, length) == memory[from..from + length]
  {
    if 0 < length < 4 {
      WordFits(data, |memory|);
    }
  }

  lemma ComplementedEnds(start: bv32, message: seq<bv8>, init: bv32, end: bv32)
    requires init == Complement(start) && end == CrcFrom(init, message)
    ensures Checksum(start, message) == Complement(end)
  {
    hide CrcFrom, Complement;
  }

  lemma WholeWord(w: bv32)
    ensures KeepBytes(w, 4) == w
  {}

  // The whole words of crc32_ieee_802_3_recalculate.
  method RecalculateWords(memory: array<bv8>, first: nat, words: nat, start: bv32) returns (crc: bv32)
    requires 4 * first + 4 * words <= memory.Length
    ensures crc == CrcFrom(start, memory[4 * first..4 * first + 4 * words])
  {
    hide *;
    ghost var bytes := memory[..];
    crc := start;
    CrcOfNothing(start);
    assert bytes[4 * first..4 * first] == [];
    var wordPtr, tempLength := first, words;
    while tempLength > 0
      invariant 0 <= tempLength && first <= wordPtr && wordPtr + tempLength == first + words
      invariant crc == CrcFrom(start, bytes[4 * first..4 * wordPtr])
    {
      tempLength := tempLength - 1;
      var word := WordAt(memory[..], wordPtr);
      ghost var before := crc;
      crc := RecalculateBytesHelper(word, crc, 4);
      WholeWord(word);
      TailAdvance(bytes, 4 * first, wordPtr, 4, start, before, word, word, crc);
      wordPtr := wordPtr + 1;
    }
  }

  // Its initial bytes: the upper ones of a word.
  method RecalculateHead(memory: array<bv8>, wordPtr: nat, tempLength: nat, start: bv32) returns (crc: bv32)
    requires 4 * wordPtr + 4 <= memory.Length && 1 <= tempLength <= 3
    ensures crc == CrcFrom(start, memory[4 * wordPtr + 4 - tempLength..4 * wordPtr + 4])
  {
    hide *;
    var word := WordAt(memory[..], wordPtr);
    ghost var whole := word;
    word := DropBytes(word, 4 - tempLength);
    crc := RecalculateBytesHelper(word, start, tempLength);
    HeadAdvance(memory[..], wordPtr, tempLength, start, whole, word, crc);
  }

  // Its trailing bytes: the lower ones of a word.
  method RecalculateTail(memory: array<bv8>, wordPtr: nat, length: nat, start: bv32) returns (crc: bv32)
    requires 4 * wordPtr + 4 <= memory.Length && 1 <= length <= 3
    ensures crc == CrcFrom(start, memory[4 * wordPtr..4 * wordPtr + length])
  {
    hide *;
    var word := WordAt(memory[..], wordPtr);
    ghost var whole := word;
    word := KeepBytes(word, length);
    crc := RecalculateBytesHelper(word, start, length);
    CrcOfNothing(start);
    assert memory[..][4 * wordPtr..4 * wordPtr] == [];
    TailAdvance(memory[..], 4 * wordPtr, wordPtr, length, start, start, whole, word, crc);
  }

  // Its whole words, if any, and its trailing bytes.
  method RecalculateAligned(memory: array<bv8>, first: nat, size: nat, start: bv32) returns (crc: bv32)
    requires 4 * first + size <= memory.Length && memory.Length % 4 == 0
    ensures crc == CrcFrom(start, memory[4 * first..4 * first + size])
  {
    hide *;
    ghost var bytes, from := memory[..], 4 * first;
    var wordPtr, length := first + size / 4, size % 4;
    crc := RecalculateWords(memory, first, size / 4, start);
    if length != 0 {
      ghost var before := crc;
      crc := RecalculateTail(memory, wordPtr, length, crc);
      CrcSlices(start, bytes, from, 4 * wordPtr, from + size, before, crc);
    }
  }

  // crc32_ieee_802_3_recalculate; `data` is the address of the block, memory starts word-aligned.
  method Recalculate(memory: array<bv8>, data: nat, blockLength: nat, start: bv32) returns (crc: bv32)
    requires data + blockLength <= memory.Length && memory.Length % 4 == 0
    ensures crc == Checksum(start, BytesRead(memory[..], data, blockLength))
  {
    hide *;
    ghost var bytes := memory[..];
    var wordPtr, length := data / 4, blockLength;
    ghost var from := if 0 < length < 4 then 4 * (data / 4) + 4 - length else data;
    BytesReadIs(bytes, data, blockLength, from);
    var tempCrc := Complement(start);
    ghost var init := tempCrc;
    CrcOfNothing(init);
    assert bytes[from..from] == [];
    var tempLength := if length < 4 then length else (4 - data % 4) % 4;
    if tempLength != 0 {
      length := length - tempLength;
      tempCrc := RecalculateHead(memory, wordPtr, tempLength, tempCrc);
      wordPtr := wordPtr + 1;
    }
    assert length != 0 ==> from <= 4 * wordPtr && 4 * wordPtr + length == from + blockLength;
    assert length == 0 ==> tempCrc == CrcFrom(init, bytes[from..from + blockLength]);
    assert length != 0 ==> tempCrc == CrcFrom(init, bytes[from..4 * wordPtr]);
    if length != 0 {
      ghost var before := tempCrc;
      tempCrc := RecalculateAligned(memory, wordPtr, length, tempCrc);
      CrcSlices(init, bytes, from, 4 * wordPtr, from + blockLength, before, tempCrc);
    }
    ComplementedEnds(start, bytes[from..from + blockLength], init, tempCrc);
    crc := Complement(tempCrc);
  }

  // crc32_ieee_802_3
  method Crc32Ieee(memory: array<bv8>, data: nat, length: nat) returns (crc: bv32)
    requires data + length <= memory.Length && memory.Length % 4 == 0
    ensures crc == Checksum(0, BytesRead(memory[..], data, length))
  {
    crc := Recalculate(memory, data, length, 0);
  }

  // Where the bytes that enter the checksum are the bytes of the block.
  predicate ReadsBlock(data: nat, length: nat) {
    length == 0 || length >= 4 || data % 4 + length == 4
  }

  // The loop computes the block's checksum whatever memory holds exactly when the block is empty, has
  // at least four bytes, or ends on a word boundary.
  lemma {:induction false} RecalculateIsBlockChecksum(data: nat, length: nat, start: bv32)
    ensures ReadsBlock(data, length) <==>
            forall memory: seq<bv8> :: data + length <= |memory| && |memory| % 4 == 0 ==>
              Checksum(start, BytesRead(memory, data, length)) == Checksum(start, memory[data..data + length])
  {
    hide Checksum;
    if !ReadsBlock(data, length) {
      var end := 4 * (data / 4) + 4;
      var memory := ZeroBytes(end + 4)[data := 1];
      var read, block := BytesRead(memory, data, length), memory[data..data + length];
      assert read[0] == 0 && block[0] == 1;
      var bits := Difference(BitsOf(read), BitsOf(block));
      assert ConfinedFrom(bits, 0, 32);
      assert Confined(bits, 32);
      if Checksum(start, read) == Checksum(start, block) {
        BurstsDetected(start, read, block);
        assert false;
      }
    }
  }

  // ----- littlefs -----------------------------------------------------------------------------------

  function NibbleTable(n: bv32): bv32 {
    if n & 8 == 0 then
      if n & 4 == 0 then
        if n & 2 == 0 then (if n & 1 == 0 then 0x00000000 else 0x1db71064)
                      else (if n & 1 == 0 then 0x3b6e20c8 else 0x26d930ac)
      else
        if n & 2 == 0 then (if n & 1 == 0 then 0x76dc4190 else 0x6b6b51f4)
                      else (if n & 1 == 0 then 0x4db26158 else 0x5005713c)
    else
      if n & 4 == 0 then
        if n & 2 == 0 then (if n & 1 == 0 then 0xedb88320 else 0xf00f9344)
                      else (if n & 1 == 0 then 0xd6d6a3e8 else 0xcb61b38c)
      else
        if n & 2 == 0 then (if n & 1 == 0 then 0x9b64c2b0 else 0x86d3d2d4)
                      else (if n & 1 == 0 then 0xa00ae278 else 0xbdbdf21c)
  }

  // Four division steps.
  function Step4(c: bv32): bv32 { Step(Step(Step(Step(c)))) }

  lemma StepsByFour(c: bv32, n: nat)
    requires n >= 4
    ensures Steps(c, n) == Steps(Step4(c), n - 4)
  {
    var c1 := Step(c);
    var c2 := Step(c1);
    var c3 := Step(c2);
    hide Step;
    assert Step4(c) == Step(c3);
    hide Step4;
    assert Steps(c, n) == Steps(c1, n - 1);
    assert Steps(c1, n - 1) == Steps(c2, n - 2);
    assert Steps(c2, n - 2) == Steps(c3, n - 3);
  }

  // One table step on the low nibble of `nibble`.
  function Lookup(crc: bv32, nibble: bv32): bv32 {
    (crc >> 4) ^ NibbleTable((crc ^ nibble) & 0xF)
  }

  // What a division step subtracts, by the bit it shifts out.
  function Subtracted(low: bv32): bv32 { 0xEDB88320 & (0 - low) }

  lemma StepParts(c: bv32, half: bv32, low: bv32, part: bv32, next: bv32)
    requires half == c >> 1 && low == c & 1 && part == Subtracted(low) && next == Step(c)
    ensures next == half ^ part
  {}

  lemma LowestBit(low: bv32, high: bv32, w: bv32)
    requires w == low ^ high && high & 1 == 0
    ensures w & 1 == low & 1
  {}

  lemma HalfOfXor(low: bv32, high: bv32, w: bv32, moved: bv32, lowHalf: bv32, half: bv32)
    requires w == low ^ high && moved == high >> 1 && lowHalf == low >> 1 && half == w >> 1
    ensures half == lowHalf ^ moved
  {}

  lemma SamePart(half: bv32, lowHalf: bv32, moved: bv32, part: bv32, low': bv32, w': bv32)
    requires half == lowHalf ^ moved && low' == lowHalf ^ part && w' == half ^ part
    ensures w' == low' ^ moved
  {}

  // Bits above the lowest only move down.
  lemma StepPeels(low: bv32, high: bv32, w: bv32, moved: bv32, low': bv32, w': bv32)
    requires w == low ^ high && high & 1 == 0 && moved == high >> 1 && low' == Step(low) && w' == Step(w)
    ensures w' == low' ^ moved
  {
    hide *;
    var half, lowHalf, bit := w >> 1, low >> 1, low & 1;
    var part := Subtracted(bit);
    LowestBit(low, high, w);
    HalfOfXor(low, high, w, moved, lowHalf, half);
    StepParts(low, lowHalf, bit, part, low');
    StepParts(w, half, bit, part, w');
    SamePart(half, lowHalf, moved, part, low', w');
  }

  // Which is so four times in a row for the bits above the nibble.
  lemma AboveNibble(w: bv32, low: bv32, h0: bv32, h1: bv32, h2: bv32, h3: bv32, h4: bv32)
    requires low == w & 0xF && h0 == w ^ low && h1 == h0 >> 1 && h2 == h1 >> 1 && h3 == h2 >> 1 && h4 == h3 >> 1
    ensures w == low ^ h0 && h4 == w >> 4
    ensures h0 & 1 == 0 && h1 & 1 == 0 && h2 & 1 == 0 && h3 & 1 == 0
  {}

  lemma EntryOfNibble(low: bv32)
    requires low & 0xF == low
    ensures NibbleTable(low) == Step4(low)
  {}

  lemma Step4Is(c: bv32, c1: bv32, c2: bv32, c3: bv32, c4: bv32)
    requires c1 == Step(c) && c2 == Step(c1) && c3 == Step(c2) && c4 == Step(c3)
    ensures c4 == Step4(c)
  {
    hide Step;
  }

  lemma NibbleOf(w: bv32, low: bv32)
    requires low == w & 0xF
    ensures low & 0xF == low
  {}

  lemma NibbleEntry(low: bv32, w: bv32, high: bv32, entry: bv32, next: bv32)
    requires high == w >> 4 && low == w & 0xF && entry == NibbleTable(low) && next == high ^ entry
    ensures next == Step4(w)
  {
    hide *;
    var l1, w1 := Step(low), Step(w);
    var l2, w2 := Step(l1), Step(w1);
    var l3, w3 := Step(l2), Step(w2);
    var l4, w4 := Step(l3), Step(w3);
    var h0 := w ^ low;
    var h1 := h0 >> 1;
    var h2 := h1 >> 1;
    var h3 := h2 >> 1;
    var h4 := h3 >> 1;
    AboveNibble(w, low, h0, h1, h2, h3, h4);
    StepPeels(low, h0, w, h1, l1, w1);
    StepPeels(l1, h1, w1, h2, l2, w2);
    StepPeels(l2, h2, w2, h3, l3, w3);
    StepPeels(l3, h3, w3, h4, l4, w4);
    Step4Is(low, l1, l2, l3, l4);
    Step4Is(w, w1, w2, w3, w4);
    NibbleOf(w, low);
    EntryOfNibble(low);
  }

  lemma LookupIs(crc: bv32, nibble: bv32, shifted: bv32, index: bv32, entry: bv32, c1: bv32)
    requires c1 == Lookup(crc, nibble)
    requires shifted == crc >> 4 && index == (crc ^ nibble) & 0xF && entry == NibbleTable(index)
    ensures c1 == shifted ^ entry
  {
    hide NibbleTable;
  }

  // The bits of the byte above the nibble only move down by four.
  lemma MixedAbove(crc: bv32, wide: bv32, w: bv32, shifted: bv32, high: bv32, wshifted: bv32, entry: bv32, c1: bv32,
                   w1: bv32)
    requires w == crc ^ wide && shifted == crc >> 4 && high == wide >> 4 && wshifted == w >> 4
    requires c1 == shifted ^ entry && w1 == c1 ^ high
    ensures w1 == wshifted ^ entry
  {}

  lemma {:induction false} LookupSteps(crc: bv32, wide: bv32, w: bv32, c1: bv32, high: bv32, w1: bv32)
    requires w == crc ^ wide && c1 == Lookup(crc, wide) && high == wide >> 4 && w1 == c1 ^ high
    ensures w1 == Step4(w)
  {
    hide *;
    var shifted, index, wshifted := crc >> 4, w & 0xF, w >> 4;
    var entry := NibbleTable(index);
    LookupIs(crc, wide, shifted, index, entry, c1);
    MixedAbove(crc, wide, w, shifted, high, wshifted, entry, c1, w1);
    NibbleEntry(index, w, wshifted, entry, w1);
  }

  lemma {:induction false} LfsByte(crc: bv32, byte: bv8, wide: bv32, high: bv32, w: bv32, c1: bv32, c2: bv32)
    requires wide == byte as bv32 && high == wide >> 4 && w == crc ^ wide
    requires c1 == Lookup(crc, wide) && c2 == Lookup(c1, high)
    ensures c2 == Steps(w, 8)
  {
    hide *;
    var w1, none := c1 ^ high, high >> 4;
    assert none == 0;
    assert c2 == c2 ^ none;
    LookupSteps(crc, wide, w, c1, high, w1);
    LookupSteps(c1, high, w1, c2, none, c2);
    StepsByFour(w, 8);
    StepsByFour(w1, 4);
    NoSteps(c2);
  }

  lemma LfsExtend(start: bv32, front: seq<bv8>, crc: bv32, byte: bv8, wide: bv32, high: bv32, c1: bv32, c2: bv32)
    requires crc == CrcFrom(start, front) && wide == byte as bv32 && high == wide >> 4
    requires c1 == Lookup(crc, wide) && c2 == Lookup(c1, high)
    ensures c2 == CrcFrom(start, front + [byte])
  {
    hide *;
    var w := crc ^ wide;
    LfsByte(crc, byte, wide, high, w, c1, c2);
    CrcExtend(start, front, byte, crc, w);
  }

  // lfs_crc on a buffer that starts anywhere in memory
  method LfsCrc(start: bv32, memory: array<bv8>, buffer: nat, size: nat) returns (crc: bv32)
    requires buffer + size <= memory.Length
    ensures crc == CrcFrom(start, memory[buffer..buffer + size])
  {
    hide *;
    crc := start;
    CrcOfNothing(start);
    assert memory[buffer..buffer] == [];
    for i := 0 to size
      invariant crc == CrcFrom(start, memory[buffer..buffer + i])
    {
      var byte := memory[buffer + i] as bv32;
      var high := byte >> 4;
      ghost var before := crc;
      crc := Lookup(crc, byte);
      ghost var middle := crc;
      crc := Lookup(crc, high);
      LfsExtend(start, memory[buffer..buffer + i], before, memory[buffer + i], byte, high, middle, crc);
      assert memory[buffer..buffer + i] + [memory[buffer + i]] == memory[buffer..buffer + i + 1];
    }
  }

  // Two implementations, one checksum: started at all ones and complemented, lfs_crc is CRC-32.
  method LfsMatchesCrc32(memory: array<bv8>, data: nat, length: nat) returns (crc: bv32, lfs: bv32)
    requires data + length <= memory.Length && memory.Length % 4 == 0 && ReadsBlock(data, length)
    ensures crc == Complement(lfs)
    ensures crc == Checksum(0, memory[data..data + length])
  {
    hide CrcFrom;
    crc := Crc32Ieee(memory, data, length);
    lfs := LfsCrc(0xFFFFFFFF, memory, data, length);
    assert memory[..][data..data + length] == memory[data..data + length];
    assert Complement(0) == 0xFFFFFFFF;
  }
}
