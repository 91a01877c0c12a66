/** Thirty-two-bit words as division registers for the CRC-32 polynomial of IEEE Std 802.3. */
module Register32 {
  import opened Bits
  import opened Division

  // The n lowest bits, lowest first.
  function Register(c: bv32, n: nat): (r: seq<bool>)
    ensures |r| == n
    decreases n
  {
    if n == 0 then [] else [c & 1 == 1] + Register(c >> 1, n - 1)
  }

  const POLY: seq<bool> := Register(0xEDB88320, 32)

  // One step of the reflected division: 0 - 1 is a mask of ones, 0 - 0 a mask of zeros.
  function Step(c: bv32): bv32 {
    (c >> 1) ^ (0xEDB88320 & (0 - (c & 1)))
  }

  lemma StepCases(c: bv32)
    ensures Step(c) == if c & 1 == 1 then (c >> 1) ^ 0xEDB88320 else c >> 1
  {
    assert c & 1 == 1 || c & 1 == 0;
  }

  // ----- Bits of a word -------------------------------------------------------------------------

  lemma Unfold(c: bv32, n: nat)
    requires n > 0
    ensures Register(c, n) == [c & 1 == 1] + Register(c >> 1, n - 1)
  {}

  predicate Fits(c: bv32, n: nat)
    decreases n
  {
    if n == 0 then c == 0 else Fits(c >> 1, n - 1)
  }

  lemma {:induction false} PadZero(c: bv32, n: nat)
    requires Fits(c, n)
    ensures Register(c, n + 1) == Register(c, n) + [false]
    decreases n
  {
    Unfold(c, n + 1);
    if n != 0 {
      PadZero(c >> 1, n - 1);
    }
  }

  lemma AllFit(c: bv32)
    ensures Fits(c, 32) && Fits(c >> 1, 31)
  {
    assert Fits(c >> 32, 0);
    assert Fits(c >> 30, 2);
    assert Fits(c >> 28, 4);
    assert Fits(c >> 26, 6);
    assert Fits(c >> 24, 8);
    assert Fits(c >> 22, 10);
    assert Fits(c >> 20, 12);
    assert Fits(c >> 18, 14);
    assert Fits(c >> 16, 16);
    assert Fits(c >> 14, 18);
    assert Fits(c >> 12, 20);
    assert Fits(c >> 10, 22);
    assert Fits(c >> 8, 24);
    assert Fits(c >> 6, 26);
    assert Fits(c >> 4, 28);
    assert Fits(c >> 2, 30);
  }

  lemma SameStep(a: bv32, b: bv32, a1: bv32, b1: bv32, x: bool, y: bool, n: nat)
    requires n > 0 && a1 == a >> 1 && b1 == b >> 1 && x == (a & 1 == 1) && y == (b & 1 == 1)
    requires Register(a, n) == Register(b, n)
    ensures x == y && Register(a1, n - 1) == Register(b1, n - 1)
  {
    hide *;
    UnfoldAs(a, a1, x, n);
    UnfoldAs(b, b1, y, n);
    SameCons(x, Register(a1, n - 1), y, Register(b1, n - 1));
  }

  lemma FitsUnfold(c: bv32, c1: bv32, n: nat)
    requires Fits(c, n) && c1 == c >> 1
    ensures if n == 0 then c == 0 else Fits(c1, n - 1)
  {}

  lemma {:induction false} SameBits(a: bv32, b: bv32, n: nat)
    requires Fits(a, n) && Fits(b, n) && Register(a, n) == Register(b, n)
    ensures a == b
  {
    hide *;
    var a1, b1 := a >> 1, b >> 1;
    FitsUnfold(a, a1, n);
    FitsUnfold(b, b1, n);
    if n != 0 {
      var x, y := a & 1 == 1, b & 1 == 1;
      SameStep(a, b, a1, b1, x, y, n);
      SameBits(a1, b1, n - 1);
      SameHalves(a, b, a1, x);
    }
  }

  lemma SameCons(x: bool, xs: seq<bool>, y: bool, ys: seq<bool>)
    requires [x] + xs == [y] + ys
    ensures x == y && xs == ys
  {
    assert ([x] + xs)[0] == x && ([y] + ys)[0] == y;
    assert ([x] + xs)[1..] == xs && ([y] + ys)[1..] == ys;
  }

  lemma SameHalves(a: bv32, b: bv32, half: bv32, low: bool)
    requires (a & 1 == 1) == low == (b & 1 == 1)
    requires a >> 1 == half == b >> 1
    ensures a == b
  {}

  lemma {:induction false} ZeroBits(n: nat)
    ensures Register(0, n) == Zeros(n)
    decreases n
  {
    if n != 0 {
      ZeroBits(n - 1);
    }
  }

  lemma XorGlue(a: bv32, b: bv32, c: bv32, a1: bv32, b1: bv32, c1: bv32, n: nat, x: bool, y: bool, z: bool)
    requires Register(a, n + 1) == [x] + Register(a1, n)
    requires Register(b, n + 1) == [y] + Register(b1, n)
    requires Register(c, n + 1) == [z] + Register(c1, n)
    requires z == (x != y)
    requires Register(c1, n) == Difference(Register(a1, n), Register(b1, n))
    ensures Register(c, n + 1) == Difference(Register(a, n + 1), Register(b, n + 1))
  {
    hide Register;
    assert ([x] + Register(a1, n))[1..] == Register(a1, n);
    assert ([y] + Register(b1, n))[1..] == Register(b1, n);
  }

  // Halved without its lowest bit, kept as a name so that no proof below has to look into the words.
  predicate Halved(c: bv32, c1: bv32, low: bool) { c1 == c >> 1 && low == (c & 1 == 1) }

  predicate IsXor(a: bv32, b: bv32, c: bv32) { c == a ^ b }

  lemma Halve(c: bv32)
    ensures Halved(c, c >> 1, c & 1 == 1)
  {}

  lemma UnfoldAs(c: bv32, c1: bv32, low: bool, n: nat)
    requires n > 0 && Halved(c, c1, low)
    ensures Register(c, n) == [low] + Register(c1, n - 1)
  {}

  lemma XorLow(a: bv32, b: bv32, c: bv32, a1: bv32, b1: bv32, c1: bv32, x: bool, y: bool, z: bool)
    requires IsXor(a, b, c) && Halved(a, a1, x) && Halved(b, b1, y) && Halved(c, c1, z)
    ensures z == (x != y)
  {}

  lemma XorHalves(a: bv32, b: bv32, c: bv32, a1: bv32, b1: bv32, c1: bv32, x: bool, y: bool, z: bool)
    requires IsXor(a, b, c) && Halved(a, a1, x) && Halved(b, b1, y) && Halved(c, c1, z)
    ensures IsXor(a1, b1, c1)
  {}

  lemma XorStep(a: bv32, b: bv32, c: bv32, a1: bv32, b1: bv32, c1: bv32, x: bool, y: bool, z: bool, n: nat)
    requires n > 0 && IsXor(a, b, c) && Halved(a, a1, x) && Halved(b, b1, y) && Halved(c, c1, z)
    requires Register(c1, n - 1) == Difference(Register(a1, n - 1), Register(b1, n - 1))
    ensures Register(c, n) == Difference(Register(a, n), Register(b, n))
  {
    hide *;
    XorLow(a, b, c, a1, b1, c1, x, y, z);
    UnfoldAs(a, a1, x, n);
    UnfoldAs(b, b1, y, n);
    UnfoldAs(c, c1, z, n);
    XorGlue(a, b, c, a1, b1, c1, n - 1, x, y, z);
  }

  lemma NoDifference(a: bv32, b: bv32, c: bv32)
    ensures Register(c, 0) == Difference(Register(a, 0), Register(b, 0))
  {}

  lemma {:induction false} XorDifference(a: bv32, b: bv32, c: bv32, n: nat)
    requires IsXor(a, b, c)
    ensures Register(c, n) == Difference(Register(a, n), Register(b, n))
    decreases n
  {
    hide *;
    if n == 0 {
      NoDifference(a, b, c);
    } else {
      var a1, b1, c1 := a >> 1, b >> 1, c >> 1;
      var x, y, z := a & 1 == 1, b & 1 == 1, c & 1 == 1;
      Halve(a);
      Halve(b);
      Halve(c);
      XorHalves(a, b, c, a1, b1, c1, x, y, z);
      XorDifference(a1, b1, c1, n - 1);
      XorStep(a, b, c, a1, b1, c1, x, y, z, n);
    }
  }

  lemma XorIsDifference(a: bv32, b: bv32, c: bv32, n: nat)
    requires c == a ^ b
    ensures Register(c, n) == Difference(Register(a, n), Register(b, n))
  {
    hide Register, Difference;
    XorDifference(a, b, c, n);
  }

  // ----- The register step is the division step ---------------------------------------------------

  lemma {:induction false} StepIsShift(c: bv32)
    ensures Register(Step(c), 32) == Shift(POLY, Register(c, 32))
  {
    AllFit(c);
    PadZero(c >> 1, 31);
    StepCases(c);
    Unfold(c, 32);
    XorIsDifference(c >> 1, 0xEDB88320, (c >> 1) ^ 0xEDB88320, 32);
    hide Step, Difference, Register, Fits;
  }

  function Steps(c: bv32, n: nat): bv32
    decreases n
  {
    if n == 0 then c else Steps(Step(c), n - 1)
  }

  lemma {:induction false} StepsAreShifts(c: bv32, n: nat)
    ensures Register(Steps(c, n), 32) == Shifts(POLY, Register(c, 32), n)
    decreases n
  {
    hide Register, Step, Shift;
    if n != 0 {
      StepIsShift(c);
      StepsAreShifts(Step(c), n - 1);
    }
  }

  // ----- The polynomial ---------------------------------------------------------------------------

  function Nth(c: bv32, n: nat): bool
    decreases n
  {
    if n == 0 then c & 1 == 1 else Nth(c >> 1, n - 1)
  }

  lemma {:induction false} RegisterNth(c: bv32, n: nat, i: nat)
    requires i < n
    ensures Register(c, n)[i] == Nth(c, i)
    decreases i
  {
    if i != 0 {
      RegisterNth(c >> 1, n - 1, i - 1);
    }
  }

  lemma {:induction false} PolyFacts()
    ensures |POLY| == 32 && POLY[31]
  {
    RegisterNth(0xEDB88320, 32, 31);
    assert Nth(0x3, 1);
    assert Nth(0xE, 3);
    assert Nth(0x3B, 5);
    assert Nth(0xED, 7);
    assert Nth(0x3B6, 9);
    assert Nth(0xEDB, 11);
    assert Nth(0x3B6E, 13);
    assert Nth(0xEDB8, 15);
    assert Nth(0x3B6E2, 17);
    assert Nth(0xEDB88, 19);
    assert Nth(0x3B6E20, 21);
    assert Nth(0xEDB883, 23);
    assert Nth(0x3B6E20C, 25);
    assert Nth(0xEDB8832, 27);
    assert Nth(0x3B6E20C8, 29);
    assert Nth(0xEDB88320, 31);
  }
}
