/** Sixteen-bit words as division registers for the polynomial x^16 + x^15 + x^2 + 1. */
module Register16 {
  import opened Bits
  import opened Division

  // The n lowest bits, lowest first.
  function Register(c: bv16, n: nat): (r: seq<bool>)
    ensures |r| == n
    decreases n
  {
    if n == 0 then [] else [c & 1 == 1] + Register(c >> 1, n - 1)
  }

  const POLY: seq<bool> := Register(0xA001, 16)

  // One step of the reflected division: 0 - 1 is a mask of ones, 0 - 0 a mask of zeros.
  function Step(c: bv16): bv16 {
    (c >> 1) ^ (0xA001 & (0 - (c & 1)))
  }

  lemma StepCases(c: bv16)
    ensures Step(c) == if c & 1 == 1 then (c >> 1) ^ 0xA001 else c >> 1
  {
    assert c & 1 == 1 || c & 1 == 0;
  }

  // ----- Bits of a word -------------------------------------------------------------------------

  lemma Unfold(c: bv16, n: nat)
    requires n > 0
    ensures Register(c, n) == [c & 1 == 1] + Register(c >> 1, n - 1)
  {}

  predicate Fits(c: bv16, n: nat)
    decreases n
  {
    if n == 0 then c == 0 else Fits(c >> 1, n - 1)
  }

  lemma {:induction false} PadZero(c: bv16, n: nat)
    requires Fits(c, n)
    ensures Register(c, n + 1) == Register(c, n) + [false]
    decreases n
  {
    Unfold(c, n + 1);
    if n != 0 {
      PadZero(c >> 1, n - 1);
    }
  }

  lemma AllFit(c: bv16)
    ensures Fits(c, 16) && Fits(c >> 1, 15)
  {
    assert Fits(c >> 16, 0);
    assert Fits(c >> 14, 2);
    assert Fits(c >> 12, 4);
    assert Fits(c >> 10, 6);
    assert Fits(c >> 8, 8);
    assert Fits(c >> 6, 10);
    assert Fits(c >> 4, 12);
    assert Fits(c >> 2, 14);
  }

  lemma SameStep(a: bv16, b: bv16, a1: bv16, b1: bv16, x: bool, y: bool, n: nat)
    requires n > 0 && a1 == a >> 1 && b1 == b >> 1 && x == (a & 1 == 1) && y == (b & 1 == 1)
    requires Register(a, n) == Register(b, n)
    ensures x == y && Register(a1, n - 1) == Register(b1, n - 1)
  {
    hide *;
    UnfoldAs(a, a1, x, n);
    UnfoldAs(b, b1, y, n);
    SameCons(x, Register(a1, n - 1), y, Register(b1, n - 1));
  }

  lemma FitsUnfold(c: bv16, c1: bv16, n: nat)
    requires Fits(c, n) && c1 == c >> 1
    ensures if n == 0 then c == 0 else Fits(c1, n - 1)
  {}

  lemma {:induction false} SameBits(a: bv16, b: bv16, n: nat)
    requires Fits(a, n) && Fits(b, n) && Register(a, n) == Register(b, n)
    ensures a == b
  {
    hide *;
    var a1, b1 := a >> 1, b >> 1;
    FitsUnfold(a, a1, n);
    FitsUnfold(b, b1, n);
    if n != 0 {
      var x, y := a & 1 == 1, b & 1 == 1;
      SameStep(a, b, a1, b1, x, y, n);
      SameBits(a1, b1, n - 1);
      SameHalves(a, b, a1, x);
    }
  }

  lemma SameCons(x: bool, xs: seq<bool>, y: bool, ys: seq<bool>)
    requires [x] + xs == [y] + ys
    ensures x == y && xs == ys
  {
    assert ([x] + xs)[0] == x && ([y] + ys)[0] == y;
    assert ([x] + xs)[1..] == xs && ([y] + ys)[1..] == ys;
  }

  lemma SameHalves(a: bv16, b: bv16, half: bv16, low: bool)
    requires (a & 1 == 1) == low == (b & 1 == 1)
    requires a >> 1 == half == b >> 1
    ensures a == b
  {}

  lemma {:induction false} ZeroBits(n: nat)
    ensures Register(0, n) == Zeros(n)
    decreases n
  {
    if n != 0 {
      ZeroBits(n - 1);
    }
  }

  lemma XorGlue(a: bv16, b: bv16, c: bv16, a1: bv16, b1: bv16, c1: bv16, n: nat, x: bool, y: bool, z: bool)
    requires Register(a, n + 1) == [x] + Register(a1, n)
    requires Register(b, n + 1) == [y] + Register(b1, n)
    requires Register(c, n + 1) == [z] + Register(c1, n)
    requires z == (x != y)
    requires Register(c1, n) == Difference(Register(a1, n), Register(b1, n))
    ensures Register(c, n + 1) == Difference(Register(a, n + 1), Register(b, n + 1))
  {
    hide Register;
    assert ([x] + Register(a1, n))[1..] == Register(a1, n);
    assert ([y] + Register(b1, n))[1..] == Register(b1, n);
  }

  // Halved without its lowest bit, kept as a name so that no proof below has to look into the words.
  predicate Halved(c: bv16, c1: bv16, low: bool) { c1 == c >> 1 && low == (c & 1 == 1) }

  predicate IsXor(a: bv16, b: bv16, c: bv16) { c == a ^ b }

  lemma Halve(c: bv16)
    ensures Halved(c, c >> 1, c & 1 == 1)
  {}

  lemma UnfoldAs(c: bv16, c1: bv16, low: bool, n: nat)
    requires n > 0 && Halved(c, c1, low)
    ensures Register(c, n) == [low] + Register(c1, n - 1)
  {}

  lemma XorLow(a: bv16, b: bv16, c: bv16, a1: bv16, b1: bv16, c1: bv16, x: bool, y: bool, z: bool)
    requires IsXor(a, b, c) && Halved(a, a1, x) && Halved(b, b1, y) && Halved(c, c1, z)
    ensures z == (x != y)
  {}

  lemma XorHalves(a: bv16, b: bv16, c: bv16, a1: bv16, b1: bv16, c1: bv16, x: bool, y: bool, z: bool)
    requires IsXor(a, b, c) && Halved(a, a1, x) && Halved(b, b1, y) && Halved(c, c1, z)
    ensures IsXor(a1, b1, c1)
  {}

  lemma XorStep(a: bv16, b: bv16, c: bv16, a1: bv16, b1: bv16, c1: bv16, x: bool, y: bool, z: bool, n: nat)
    requires n > 0 && IsXor(a, b, c) && Halved(a, a1, x) && Halved(b, b1, y) && Halved(c, c1, z)
    requires Register(c1, n - 1) == Difference(Register(a1, n - 1), Register(b1, n - 1))
    ensures Register(c, n) == Difference(Register(a, n), Register(b, n))
  {
    hide *;
    XorLow(a, b, c, a1, b1, c1, x, y, z);
    UnfoldAs(a, a1, x, n);
    UnfoldAs(b, b1, y, n);
    UnfoldAs(c, c1, z, n);
    XorGlue(a, b, c, a1, b1, c1, n - 1, x, y, z);
  }

  lemma NoDifference(a: bv16, b: bv16, c: bv16)
    ensures Register(c, 0) == Difference(Register(a, 0), Register(b, 0))
  {}

  lemma {:induction false} XorDifference(a: bv16, b: bv16, c: bv16, n: nat)
    requires IsXor(a, b, c)
    ensures Register(c, n) == Difference(Register(a, n), Register(b, n))
    decreases n
  {
    hide *;
    if n == 0 {
      NoDifference(a, b, c);
    } else {
      var a1, b1, c1 := a >> 1, b >> 1, c >> 1;
      var x, y, z := a & 1 == 1, b & 1 == 1, c & 1 == 1;
      Halve(a);
      Halve(b);
      Halve(c);
      XorHalves(a, b, c, a1, b1, c1, x, y, z);
      XorDifference(a1, b1, c1, n - 1);
      XorStep(a, b, c, a1, b1, c1, x, y, z, n);
    }
  }

  lemma XorIsDifference(a: bv16, b: bv16, c: bv16, n: nat)
    requires c == a ^ b
    ensures Register(c, n) == Difference(Register(a, n), Register(b, n))
  {
    hide Register, Difference;
    XorDifference(a, b, c, n);
  }

  // ----- The register step is the division step ---------------------------------------------------

  lemma {:induction false} StepIsShift(c: bv16)
    ensures Register(Step(c), 16) == Shift(POLY, Register(c, 16))
  {
    AllFit(c);
    PadZero(c >> 1, 15);
    StepCases(c);
    Unfold(c, 16);
    XorIsDifference(c >> 1, 0xA001, (c >> 1) ^ 0xA001, 16);
    hide Step, Difference, Register, Fits;
  }

  function Steps(c: bv16, n: nat): bv16
    decreases n
  {
    if n == 0 then c else Steps(Step(c), n - 1)
  }

  lemma {:induction false} StepsAreShifts(c: bv16, n: nat)
    ensures Register(Steps(c, n), 16) == Shifts(POLY, Register(c, 16), n)
    decreases n
  {
    hide Register, Step, Shift;
    if n != 0 {
      StepIsShift(c);
      StepsAreShifts(Step(c), n - 1);
    }
  }

  // ----- The polynomial ---------------------------------------------------------------------------

  function Nth(c: bv16, n: nat): bool
    decreases n
  {
    if n == 0 then c & 1 == 1 else Nth(c >> 1, n - 1)
  }

  lemma {:induction false} RegisterNth(c: bv16, n: nat, i: nat)
    requires i < n
    ensures Register(c, n)[i] == Nth(c, i)
    decreases i
  {
    if i != 0 {
      RegisterNth(c >> 1, n - 1, i - 1);
    }
  }

  function Ones(c: bv16, n: nat): nat
    decreases n
  {
    if n == 0 then 0 else (if c & 1 == 1 then 1 else 0) + Ones(c >> 1, n - 1)
  }

  lemma {:induction false} RegisterOnes(c: bv16, n: nat)
    ensures Count(Register(c, n)) == Ones(c, n)
    decreases n
  {
    if n != 0 {
      RegisterOnes(c >> 1, n - 1);
    }
  }

  lemma {:induction false} ThreeOnes()
    ensures Ones(0xA001, 16) == 3
  {
    assert Ones(0x2, 2) == 1;
    assert Ones(0xA, 4) == 2;
    assert Ones(0x28, 6) == 2;
    assert Ones(0xA0, 8) == 2;
    assert Ones(0x280, 10) == 2;
    assert Ones(0xA00, 12) == 2;
    assert Ones(0x2800, 14) == 2;
  }

  lemma {:induction false} TopBit()
    ensures Nth(0xA001, 15)
  {
    assert Nth(0x2, 1);
    assert Nth(0xA, 3);
    assert Nth(0x28, 5);
    assert Nth(0xA0, 7);
    assert Nth(0x280, 9);
    assert Nth(0xA00, 11);
    assert Nth(0x2800, 13);
  }

  lemma {:induction false} PolyFacts()
    ensures |POLY| == 16 && POLY[15]
    ensures Count(POLY) == 3
  {
    hide Nth, Ones, Register;
    TopBit();
    ThreeOnes();
    RegisterNth(0xA001, 16, 15);
    RegisterOnes(0xA001, 16);
  }
}
