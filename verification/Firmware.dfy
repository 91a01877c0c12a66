/** The firmware image builder of the TNG modules and the checks that a module runs on a new image
    before it boots into it. */
module Firmware {
  import opened Bits
  import opened Crc32
  import opened LittleEndian

  // One of the two equally large firmware slots of the 128 KiB flash.
  const SLOT_SIZE: nat := (128 * 1024 - 8 * 1024) / 2
  const MAGIC_NUMBER: bv32 := 0xDEADBEEF

  datatype Status =
    | StatusOk
    | DeviceIdentifierIncorrect
    | MagicNumberIncorrect
    | LengthMalformed
    | CrcMismatch
    // The checksum would run over almost the whole address space.
    | ReadsOutsideFlash

  // A firmware slot starts with checksum, length, magic number and device identifier.
  predicate IsSlot(slot: seq<bv8>) { |slot| == SLOT_SIZE }

  function WordOf(bytes: seq<bv8>, offset: nat): bv32
    requires offset + 4 <= |bytes|
  {
    Word(bytes[offset], bytes[offset + 1], bytes[offset + 2], bytes[offset + 3])
  }

  function StoredLength(slot: seq<bv8>): nat
    requires |slot| >= 8
  {
    Unpack(slot[4..8])
  }

  // ----- What the checks promise ------------------------------------------------------------------

  predicate SameDevice(slot: seq<bv8>, active: seq<bv8>)
    requires IsSlot(slot) && IsSlot(active)
  {
    WordOf(slot, 12) == WordOf(active, 12)
  }

  predicate HasMagic(slot: seq<bv8>)
    requires IsSlot(slot)
  {
    WordOf(slot, 8) == MAGIC_NUMBER
  }

  // At least one page stays free for the UID and the settings.
  predicate LengthFits(slot: seq<bv8>, pageSize: nat)
    requires IsSlot(slot)
  {
    StoredLength(slot) < SLOT_SIZE - pageSize
  }

  // The checksum covers everything after the first eight bytes.
  predicate CrcMatches(slot: seq<bv8>)
    requires IsSlot(slot) && 8 <= StoredLength(slot) <= SLOT_SIZE
  {
    WordOf(slot, 0) == Checksum(0, BytesRead(slot, 8, StoredLength(slot) - 8))
  }

  // Where the checksum stops reading: the length that is left wraps around at 32 bits.
  function ReadEnd(length: nat): nat { 8 + (length - 8) % 0x1_0000_0000 }

  // A length that passes its check keeps the checksum inside the slot exactly when it covers the header.
  lemma ReadsInsideExactly(slot: seq<bv8>, pageSize: nat)
    requires IsSlot(slot) && LengthFits(slot, pageSize)
    ensures ReadEnd(StoredLength(slot)) <= SLOT_SIZE <==> StoredLength(slot) >= 8
  {
    LengthWraps(StoredLength(slot));
    hide ReadEnd;
  }

  lemma LengthWraps(length: nat)
    requires length <= SLOT_SIZE
    ensures ReadEnd(length) == if length >= 8 then length else 0x1_0000_0000 + length
  {}

  // ----- The checks -------------------------------------------------------------------------------

  // tng_firmware_check_all; the flash page size is that of the target's vendor headers.
  method CheckAll(slot: array<bv8>, active: array<bv8>, pageSize: nat) returns (status: Status)
    requires IsSlot(slot[..]) && IsSlot(active[..])
    ensures status == StatusOk <==>
            && SameDevice(slot[..], active[..])
            && HasMagic(slot[..])
            && LengthFits(slot[..], pageSize)
            && 8 <= StoredLength(slot[..])
            && CrcMatches(slot[..])
    ensures status == DeviceIdentifierIncorrect <==> !SameDevice(slot[..], active[..])
    ensures status == MagicNumberIncorrect <==> SameDevice(slot[..], active[..]) && !HasMagic(slot[..])
    ensures status == LengthMalformed <==>
            SameDevice(slot[..], active[..]) && HasMagic(slot[..]) && !LengthFits(slot[..], pageSize)
    ensures status == ReadsOutsideFlash <==>
            && SameDevice(slot[..], active[..])
            && HasMagic(slot[..])
            && LengthFits(slot[..], pageSize)
            && StoredLength(slot[..]) < 8
  {
    hide Word, Value, Checksum;
    if WordOf(slot[..], 12) != WordOf(active[..], 12) {
      return DeviceIdentifierIncorrect;
    }
    if WordOf(slot[..], 8) != MAGIC_NUMBER {
      return MagicNumberIncorrect;
    }
    var length := Unpack(slot[4..8]);
    assert slot[4..8] == slot[..][4..8];
    if !(length < SLOT_SIZE - pageSize) {
      return LengthMalformed;
    }
    ReadsInsideExactly(slot[..], pageSize);
    if ReadEnd(length) > SLOT_SIZE {
      return ReadsOutsideFlash;
    }
    var crc := Crc32Ieee(slot, 8, length - 8);
    if WordOf(slot[..], 0) != crc {
      return CrcMismatch;
    }
    return StatusOk;
  }

  // ----- The builder ------------------------------------------------------------------------------

  function PackWord(w: bv32): (bytes: seq<bv8>)
    ensures |bytes| == 4
  {
    [(w & 0xFF) as bv8, ((w >> 8) & 0xFF) as bv8, ((w >> 16) & 0xFF) as bv8, (w >> 24) as bv8]
  }

  lemma PackWordRoundTrip(w: bv32, bytes: seq<bv8>)
    requires bytes == PackWord(w)
    ensures Word(bytes[0], bytes[1], bytes[2], bytes[3]) == w
  {}

  // tng_build.py: checksum and length replace the first eight bytes.
  function Build(firmware: seq<bv8>): (image: seq<bv8>)
    requires |firmware| >= 8
    ensures |image| == |firmware| && image[8..] == firmware[8..]
  {
    PackWord(Checksum(0, firmware[8..])) + Pack(|firmware|) + firmware[8..]
  }

  lemma ImageParts(firmware: seq<bv8>, rest: seq<bv8>, slot: seq<bv8>, crc: bv32)
    requires |firmware| >= 8 && slot == Build(firmware) + rest && crc == Checksum(0, firmware[8..])
    ensures |slot| >= |firmware|
    ensures slot[..4] == PackWord(crc) && slot[4..8] == Pack(|firmware|)
    ensures slot[8..|firmware|] == firmware[8..]
  {
    hide Checksum, PackWord, Pack;
  }

  lemma StoredWord(slot: seq<bv8>, crc: bv32, bytes: seq<bv8>)
    requires |slot| >= 4 && bytes == slot[..4] == PackWord(crc)
    ensures WordOf(slot, 0) == crc
  {
    PackWordRoundTrip(crc, bytes);
    hide PackWord, Word;
  }

  lemma BytesReadBody(slot: seq<bv8>, length: nat)
    requires IsSlot(slot) && (length == 8 || 12 <= length <= SLOT_SIZE)
    ensures BytesRead(slot, 8, length - 8) == slot[8..length]
  {}

  // Every built image of eight or at least twelve bytes, flashed over whatever the slot held before,
  // carries its own length and a matching checksum.
  lemma BuiltImageMatches(firmware: seq<bv8>, rest: seq<bv8>, slot: seq<bv8>)
    requires |firmware| == 8 || 12 <= |firmware| < SLOT_SIZE
    requires slot == Build(firmware) + rest && IsSlot(slot)
    ensures StoredLength(slot) == |firmware| && CrcMatches(slot)
  {
    var crc, length := Checksum(0, firmware[8..]), |firmware|;
    hide Checksum, PackWord, Word, Pack, Unpack, Build, BytesRead, WordOf;
    ImageParts(firmware, rest, slot, crc);
    StoredWord(slot, crc, slot[..4]);
    PackRoundTrip(length);
    BytesReadBody(slot, length);
  }

  // An image flashed over these old contents carries its own length and a matching checksum.
  predicate MatchesOver(firmware: seq<bv8>, rest: seq<bv8>)
    requires 8 <= |firmware| < SLOT_SIZE && |firmware| + |rest| == SLOT_SIZE
  {
    var slot := Build(firmware) + rest;
    StoredLength(slot) == |firmware| && CrcMatches(slot)
  }

  // The stored words do not depend on the old contents.
  lemma StoredWords(firmware: seq<bv8>, rest: seq<bv8>, slot: seq<bv8>, crc: bv32)
    requires 8 <= |firmware| < SLOT_SIZE && slot == Build(firmware) + rest && crc == Checksum(0, firmware[8..])
    ensures |slot| >= 8 && StoredLength(slot) == |firmware| && WordOf(slot, 0) == crc
  {
    hide Checksum, PackWord, Word, Pack, Unpack, Build, WordOf;
    ImageParts(firmware, rest, slot, crc);
    StoredWord(slot, crc, slot[..4]);
    PackRoundTrip(|firmware|);
  }

  // Byte strings of up to four bytes are told apart by their checksums.
  lemma {:induction false} ShortDiffer(c: bv32, f: seq<bv8>, g: seq<bv8>)
    requires |f| == |g| <= 4 && f != g
    ensures Checksum(c, f) != Checksum(c, g)
  {
    hide Checksum, BitsOf, Difference;
    assert ConfinedFrom(Difference(BitsOf(f), BitsOf(g)), 0, 32);
    assert Confined(Difference(BitsOf(f), BitsOf(g)), 32);
    hide Confined;
    if Checksum(c, f) == Checksum(c, g) {
      BurstsDetected(c, f, g);
      assert false;
    }
  }

  // The checksum of one to three bytes takes them from the end of the third word of the slot.
  lemma ReadsThirdWord(slot: seq<bv8>, length: nat)
    requires IsSlot(slot) && 1 <= length <= 3
    ensures BytesRead(slot, 8, length) == slot[12 - length..12]
  {}

  lemma OldByte(image: seq<bv8>, rest: seq<bv8>, slot: seq<bv8>)
    requires slot == image + rest && |image| <= 11 && IsSlot(slot)
    ensures slot[11] == rest[11 - |image|]
  {}

  // Two old contents that differ in its last byte cannot both match.
  lemma {:induction false} OneOldContents(firmware: seq<bv8>, r1: seq<bv8>, r2: seq<bv8>)
    requires 9 <= |firmware| <= 11 && |firmware| + |r1| == |firmware| + |r2| == SLOT_SIZE
    requires r1[11 - |firmware|] != r2[11 - |firmware|]
    ensures !MatchesOver(firmware, r1) || !MatchesOver(firmware, r2)
  {
    hide Build, Checksum, WordOf, StoredLength, BytesRead;
    var crc, n := Checksum(0, firmware[8..]), |firmware| - 8;
    var s1, s2 := Build(firmware) + r1, Build(firmware) + r2;
    StoredWords(firmware, r1, s1, crc);
    StoredWords(firmware, r2, s2, crc);
    OldByte(Build(firmware), r1, s1);
    OldByte(Build(firmware), r2, s2);
    ReadsThirdWord(s1, n);
    ReadsThirdWord(s2, n);
    var b1, b2 := s1[12 - n..12], s2[12 - n..12];
    assert b1[n - 1] == s1[11] && b2[n - 1] == s2[11];
    ShortDiffer(0, b1, b2);
  }

  // A built image matches over every old contents if and only if it has eight or at least twelve bytes.
  lemma {:induction false} BuiltImageMatchesExactly(firmware: seq<bv8>)
    requires 8 <= |firmware| < SLOT_SIZE
    ensures (forall rest: seq<bv8> :: |firmware| + |rest| == SLOT_SIZE ==> MatchesOver(firmware, rest)) <==>
            |firmware| == 8 || |firmware| >= 12
  {
    hide MatchesOver, Build;
    if |firmware| == 8 || |firmware| >= 12 {
      forall rest: seq<bv8> | |firmware| + |rest| == SLOT_SIZE ensures MatchesOver(firmware, rest) {
        AlwaysMatches(firmware, rest);
      }
    } else {
      var zeros := ZeroBytes(SLOT_SIZE - |firmware|);
      var other := zeros[11 - |firmware| := 1];
      OneOldContents(firmware, zeros, other);
    }
  }

  lemma AlwaysMatches(firmware: seq<bv8>, rest: seq<bv8>)
    requires (|firmware| == 8 || 12 <= |firmware| < SLOT_SIZE) && |firmware| + |rest| == SLOT_SIZE
    ensures MatchesOver(firmware, rest)
  {
    hide Build, CrcMatches, StoredLength;
    BuiltImageMatches(firmware, rest, Build(firmware) + rest);
  }

  lemma SameHeader(good: seq<bv8>, bad: seq<bv8>)
    requires IsSlot(good) && IsSlot(bad) && good[..8] == bad[..8]
    ensures StoredLength(bad) == StoredLength(good) && WordOf(good, 0) == WordOf(bad, 0)
  {
    forall i | 0 <= i < 8 ensures good[i] == bad[i] {
      assert good[..8][i] == bad[..8][i];
    }
    assert good[4..8] == bad[4..8];
    hide Word;
  }

  // A slot that matches its checksum no longer does after any change of its body within 32 consecutive bits.
  lemma {:induction false} CorruptionDetected(good: seq<bv8>, bad: seq<bv8>, length: nat)
    requires IsSlot(good) && IsSlot(bad) && good[..8] == bad[..8] && StoredLength(good) == length
    requires 12 <= length <= SLOT_SIZE && good[8..length] != bad[8..length]
    requires Confined(Difference(BitsOf(good[8..length]), BitsOf(bad[8..length])), 32)
    requires CrcMatches(good)
    ensures StoredLength(bad) == length && !CrcMatches(bad)
  {
    SameHeader(good, bad);
    hide Word, Checksum, BitsOf, Confined, WordOf, BytesRead;
    BytesReadBody(good, length);
    BytesReadBody(bad, length);
    if CrcMatches(bad) {
      BurstsDetected(0, good[8..length], bad[8..length]);
      assert false;
    }
  }

  // Flash a built image over the slot's old contents, then check it: it is accepted exactly when
  // device identifier and magic number are right.
  method FlashAndCheck(firmware: seq<bv8>, slot: array<bv8>, active: array<bv8>, pageSize: nat) returns (status: Status)
    requires |firmware| == 8 || 12 <= |firmware|
    requires |firmware| < SLOT_SIZE - pageSize
    requires IsSlot(slot[..]) && IsSlot(active[..]) && slot != active
    modifies slot
    ensures slot[..] == Build(firmware) + old(slot[|firmware|..])
    ensures status == StatusOk <==> SameDevice(slot[..], active[..]) && HasMagic(slot[..])
  {
    hide Build, Checksum, WordOf, CrcMatches, StoredLength, SameDevice, HasMagic;
    var image := Build(firmware);
    ghost var rest := slot[|firmware|..];
    forall i | 0 <= i < |image| {
      slot[i] := image[i];
    }
    assert slot[..] == image + rest;
    BuiltImageMatches(firmware, rest, slot[..]);
    status := CheckAll(slot, active, pageSize);
  }
}
