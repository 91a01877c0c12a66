/** How many bits may differ between two accepted Modbus frames: the powers of x repeat with period 32767 only,
    so that two errors closer together than that are always noticed. */
module Distance {
  import opened Bits
  import opened Division
  import opened Register16
  import opened Crc16

  // ----- Powers of x ----------------------------------------------------------------------------------

  // The register of the constant polynomial; n steps multiply by the n-th power of x.
  const ONE: bv16 := 0x8000

  lemma {:induction false} StepsAdd(c: bv16, m: nat, n: nat)
    ensures Steps(c, m + n) == Steps(Steps(c, m), n)
    decreases m
  {
    hide Step;
    if m != 0 {
      StepsAdd(Step(c), m - 1, n);
    }
  }

  lemma StepXor(a: bv16, b: bv16, c: bv16)
    requires IsXor(a, b, c)
    ensures IsXor(Step(a), Step(b), Step(c))
  {}

  lemma {:induction false} StepsXor(a: bv16, b: bv16, c: bv16, n: nat)
    requires IsXor(a, b, c)
    ensures IsXor(Steps(a, n), Steps(b, n), Steps(c, n))
    decreases n
  {
    hide Step, IsXor;
    if n != 0 {
      StepXor(a, b, c);
      StepsXor(Step(a), Step(b), Step(c), n - 1);
    }
  }

  lemma StepsAfterStep(c: bv16, n: nat)
    ensures Steps(Step(c), n) == Step(Steps(c, n))
  {
    hide Step;
    StepsAdd(c, n, 1);
    assert Steps(Steps(c, n), 1) == Steps(Step(Steps(c, n)), 0);
  }

  lemma {:induction false} StepsOfZero(n: nat)
    ensures Steps(0, n) == 0
    decreases n
  {
    assert Step(0) == 0;
    hide Step;
    if n != 0 {
      StepsOfZero(n - 1);
    }
  }

  // One summand of a product, if the coefficient is there.
  function Part(a: bv16, b: bv16, coefficient: bv16): bv16 { if b & coefficient != 0 then a else 0 }

  function Sum4(a: bv16, b: bv16, c: bv16, d: bv16): bv16 { (a ^ b) ^ (c ^ d) }

  function Times4(a: bv16, b: bv16, first: bv16): bv16 {
    Sum4(Part(a, b, first), Part(Step(a), b, first >> 1),
         Part(Step(Step(a)), b, first >> 2), Part(Step(Step(Step(a))), b, first >> 3))
  }

  function Step4(a: bv16): bv16 { Step(Step(Step(Step(a)))) }

  // The product of two polynomials: the sum of the first multiplied by every power of x in the second.
  function Times(a: bv16, b: bv16): bv16 {
    Sum4(Times4(a, b, 0x8000), Times4(Step4(a), b, 0x0800),
         Times4(Step4(Step4(a)), b, 0x0080), Times4(Step4(Step4(Step4(a))), b, 0x0008))
  }

  lemma Sum4Steps(a: bv16, b: bv16, c: bv16, d: bv16, n: nat)
    ensures Sum4(Steps(a, n), Steps(b, n), Steps(c, n), Steps(d, n)) == Steps(Sum4(a, b, c, d), n)
  {
    hide *;
    var ab, cd := a ^ b, c ^ d;
    SumIs(a, b, c, d, ab, cd, Sum4(a, b, c, d));
    StepsXor(a, b, ab, n);
    StepsXor(c, d, cd, n);
    StepsXor(ab, cd, Sum4(a, b, c, d), n);
    SumOf(Steps(a, n), Steps(b, n), Steps(c, n), Steps(d, n), Steps(ab, n), Steps(cd, n), Steps(Sum4(a, b, c, d), n));
  }

  lemma SumIs(a: bv16, b: bv16, c: bv16, d: bv16, ab: bv16, cd: bv16, sum: bv16)
    requires ab == a ^ b && cd == c ^ d && sum == Sum4(a, b, c, d)
    ensures IsXor(a, b, ab) && IsXor(c, d, cd) && IsXor(ab, cd, sum)
  {}

  lemma SumOf(a: bv16, b: bv16, c: bv16, d: bv16, ab: bv16, cd: bv16, sum: bv16)
    requires IsXor(a, b, ab) && IsXor(c, d, cd) && IsXor(ab, cd, sum)
    ensures Sum4(a, b, c, d) == sum
  {}

  lemma PartSteps(a: bv16, b: bv16, coefficient: bv16, n: nat)
    ensures Part(Steps(a, n), b, coefficient) == Steps(Part(a, b, coefficient), n)
  {
    StepsOfZero(n);
    hide Steps;
  }

  // Four more factors x first or last.
  lemma Step4Steps(a: bv16, n: nat)
    ensures Step(Steps(a, n)) == Steps(Step(a), n)
    ensures Step(Step(Steps(a, n))) == Steps(Step(Step(a)), n)
    ensures Step(Step(Step(Steps(a, n)))) == Steps(Step(Step(Step(a))), n)
    ensures Step4(Steps(a, n)) == Steps(Step4(a), n)
  {
    hide Step, Steps;
    StepsAfterStep(a, n);
    StepsAfterStep(Step(a), n);
    StepsAfterStep(Step(Step(a)), n);
    StepsAfterStep(Step(Step(Step(a))), n);
  }

  lemma Times4Steps(a: bv16, b: bv16, first: bv16, n: nat)
    ensures Times4(Steps(a, n), b, first) == Steps(Times4(a, b, first), n)
  {
    hide Step, Steps, Part, Sum4, Step4;
    Step4Steps(a, n);
    var a1, a2, a3 := Step(a), Step(Step(a)), Step(Step(Step(a)));
    PartSteps(a, b, first, n);
    PartSteps(a1, b, first >> 1, n);
    PartSteps(a2, b, first >> 2, n);
    PartSteps(a3, b, first >> 3, n);
    Sum4Steps(Part(a, b, first), Part(a1, b, first >> 1), Part(a2, b, first >> 2), Part(a3, b, first >> 3), n);
  }

  // A factor x^n may be taken out of a product.
  lemma TimesSteps(a: bv16, b: bv16, n: nat)
    ensures Times(Steps(a, n), b) == Steps(Times(a, b), n)
  {
    hide Step, Steps, Times4, Sum4, Step4;
    var a1, a2, a3 := Step4(a), Step4(Step4(a)), Step4(Step4(Step4(a)));
    Step4Steps(a, n);
    Step4Steps(a1, n);
    Step4Steps(a2, n);
    Times4Steps(a, b, 0x8000, n);
    Times4Steps(a1, b, 0x0800, n);
    Times4Steps(a2, b, 0x0080, n);
    Times4Steps(a3, b, 0x0008, n);
    Sum4Steps(Times4(a, b, 0x8000), Times4(a1, b, 0x0800), Times4(a2, b, 0x0080), Times4(a3, b, 0x0008), n);
  }

  lemma FirstPart(b: bv16)
    ensures Times4(0x8000, b, 0x8000) == b & 0xF000
  {}

  lemma SecondPart(b: bv16)
    ensures Times4(0x0800, b, 0x0800) == b & 0x0F00
  {}

  lemma ThirdPart(b: bv16)
    ensures Times4(0x0080, b, 0x0080) == b & 0x00F0
  {}

  lemma FourthPart(b: bv16)
    ensures Times4(0x0008, b, 0x0008) == b & 0x000F
  {}

  lemma Parts(b: bv16)
    ensures Sum4(b & 0xF000, b & 0x0F00, b & 0x00F0, b & 0x000F) == b
  {}

  lemma OneShifted()
    ensures Step4(0x8000) == 0x0800 && Step4(0x0800) == 0x0080 && Step4(0x0080) == 0x0008
  {}

  lemma TimesOne(b: bv16)
    ensures Times(ONE, b) == b
  {
    hide Step, Steps, Times4, Sum4, Step4;
    OneShifted();
    FirstPart(b);
    SecondPart(b);
    ThirdPart(b);
    FourthPart(b);
    Parts(b);
  }

  // Multiplying a power of x by another one adds the exponents.
  lemma PowersMultiply(m: nat, n: nat)
    ensures Times(Steps(ONE, m), Steps(ONE, n)) == Steps(ONE, n + m)
  {
    hide Steps, Times;
    TimesSteps(ONE, Steps(ONE, n), m);
    TimesOne(Steps(ONE, n));
    StepsAdd(ONE, n, m);
  }

  predicate IsPower(n: nat, c: bv16) { Steps(ONE, n) == c }

  lemma Twice(n: nat, c: bv16, square: bv16)
    requires IsPower(n, c) && square == Times(c, c)
    ensures IsPower(2 * n, square)
  {
    hide Steps, Times;
    PowersMultiply(n, n);
  }

  lemma Next(n: nat, c: bv16, next: bv16)
    requires IsPower(n, c) && next == Step(Times(c, c))
    ensures IsPower(2 * n + 1, next)
  {
    hide Steps, Times, Step;
    PowersMultiply(n, n);
    StepsAfterStep(ONE, n + n);
    OneMore(ONE, n + n);
  }

  lemma OneMore(c: bv16, n: nat)
    ensures Steps(c, n + 1) == Steps(Step(c), n)
  {
    hide Step;
  }

  lemma First()
    ensures IsPower(1, 0x4000)
  {
    assert Steps(Step(ONE), 0) == 0x4000;
  }

  lemma {:induction false} PowerOf32767()
    ensures IsPower(32767, 0x8000)
  {
    hide IsPower;
    First();
    Next(1, 0x4000, 0x1000);
    Next(3, 0x1000, 0x0100);
    Next(7, 0x0100, 0x0001);
    Next(15, 0x0001, 0x9001);
    Next(31, 0x9001, 0xD101);
    Next(63, 0xD101, 0xC100);
    Next(127, 0xC100, 0x5001);
    Next(255, 0x5001, 0x8101);
    Next(511, 0x8101, 0xD000);
    Next(1023, 0xD000, 0x5100);
    Next(2047, 0x5100, 0x1101);
    Next(4095, 0x1101, 0x9100);
    Next(8191, 0x9100, 0x4101);
    Next(16383, 0x4101, 0x8000);
  }

  lemma {:induction false} PowerOf4681()
    ensures IsPower(4681, 0x8C69)
  {
    hide IsPower;
    First();
    Twice(1, 0x4000, 0x2000);
    Twice(2, 0x2000, 0x0800);
    Next(4, 0x0800, 0x0040);
    Twice(9, 0x0040, 0xD801);
    Twice(18, 0xD801, 0xC281);
    Next(36, 0xC281, 0x3004);
    Twice(73, 0x3004, 0xCA19);
    Twice(146, 0xCA19, 0xC169);
    Next(292, 0xC169, 0x0F31);
    Twice(585, 0x0F31, 0x672B);
    Twice(1170, 0x672B, 0x8E4C);
    Next(2340, 0x8E4C, 0x8C69);
  }

  lemma {:induction false} PowerOf1057()
    ensures IsPower(1057, 0xCE41)
  {
    hide IsPower;
    First();
    Twice(1, 0x4000, 0x2000);
    Twice(2, 0x2000, 0x0800);
    Twice(4, 0x0800, 0x0080);
    Twice(8, 0x0080, 0xA001);
    Next(16, 0xA001, 0xD401);
    Twice(33, 0xD401, 0xC221);
    Twice(66, 0xC221, 0x0608);
    Twice(132, 0x0608, 0xC049);
    Twice(264, 0xC049, 0xD861);
    Next(528, 0xD861, 0xCE41);
  }

  lemma {:induction false} PowerOf217()
    ensures IsPower(217, 0x3E55)
  {
    hide IsPower;
    First();
    Next(1, 0x4000, 0x1000);
    Twice(3, 0x1000, 0x0200);
    Next(6, 0x0200, 0x0004);
    Next(13, 0x0004, 0xC00D);
    Twice(27, 0xC00D, 0xC079);
    Twice(54, 0xC079, 0xDFE1);
    Next(108, 0xDFE1, 0x3E55);
  }

  // ----- The period -------------------------------------------------------------------------------------

  const PERIOD := 32767

  // x to this power is 1.
  predicate Repeats(n: nat) { IsPower(n, ONE) }

  lemma RepeatsRest(m: nat, n: nat)
    requires Repeats(m)
    ensures Repeats(m + n) <==> Repeats(n)
  {
    hide Steps;
    StepsAdd(ONE, m, n);
  }

  lemma {:induction false} RepeatsMultiple(m: nat, k: nat)
    requires Repeats(m)
    ensures Repeats(m * k)
    decreases k
  {
    hide Repeats;
    if k == 0 {
      RepeatsNever();
    } else {
      RepeatsMultiple(m, k - 1);
      RepeatsRest(m, m * (k - 1));
      assert m + m * (k - 1) == m * k;
    }
  }

  lemma RepeatsNever()
    ensures Repeats(0)
  {}

  // The greatest common divisor of two numbers after which the powers repeat, by subtraction.
  lemma {:induction false} CommonRepeat(m: nat, n: nat) returns (g: nat, i: nat, k: nat)
    requires m > 0 && n > 0 && Repeats(m) && Repeats(n)
    ensures Repeats(g) && g > 0 && m == g * i && n == g * k
    decreases m + n
  {
    hide Repeats;
    if m == n {
      g, i, k := m, 1, 1;
    } else if m < n {
      RepeatsRest(m, n - m);
      g, i, k := CommonRepeat(m, n - m);
      k := i + k;
    } else {
      RepeatsRest(n, m - n);
      g, i, k := CommonRepeat(m - n, n);
      i := i + k;
    }
  }

  lemma LargeFactor(g: nat, k: nat)
    requires 60 < g <= 181 && g * k == PERIOD
    ensures g == 151
  {}

  lemma SmallFactor(g: nat, k: nat)
    requires 1 <= g <= 181 && g * k == PERIOD
    ensures (g == 1 && k == 32767) || (g == 7 && k == 4681) || (g == 31 && k == 1057) || (g == 151 && k == 217)
  {
    if g <= 60 {
      assert g <= 31 ==> g in {1, 7, 31};
    } else {
      LargeFactor(g, k);
    }
  }

  lemma OneIsSmall(g: nat, k: nat)
    requires g * k == PERIOD
    ensures g > 0 && k > 0 && (g <= 181 || k <= 181)
  {
    if g > 181 && k > 181 {
      MulAtLeast(g, k);
    }
  }

  lemma MulAtLeast(g: nat, k: nat)
    requires g >= 182 && k >= 182
    ensures g * k >= 182 * 182
  {
    assert g * k == (g - 182) * (k - 182) + 182 * (g - 182) + 182 * (k - 182) + 182 * 182;
  }

  lemma {:induction false} NoShorterFactor(g: nat, k: nat)
    requires g * k == PERIOD && k > 1
    ensures !Repeats(g)
  {
    hide IsPower;
    PowerOf4681();
    PowerOf1057();
    PowerOf217();
    DifferentPowers();
    if Repeats(g) {
      OneIsSmall(g, k);
      if g > 181 {
        SmallFactor(k, g);
      } else {
        SmallFactor(g, k);
        RepeatsMultiple(g, if g == 151 then 7 else if g == 31 then 7 else if g == 7 then 31 else 217);
      }
    }
  }

  lemma DifferentPowers()
    ensures !IsPower(4681, 0x8C69) || !Repeats(4681)
    ensures !IsPower(1057, 0xCE41) || !Repeats(1057)
    ensures !IsPower(217, 0x3E55) || !Repeats(217)
  {
    hide Steps;
  }

  lemma LargerFactor(g: nat, i: nat, k: nat)
    requires 0 < g * i < g * k
    ensures k > 1
  {
    assert g * k == g * i + g * (k - i);
  }

  lemma FullPeriod()
    ensures Repeats(PERIOD)
  {
    PowerOf32767();
    hide IsPower;
  }

  // The powers of x repeat exactly every 32767 steps.
  lemma {:induction false} RepeatsExactly(n: nat)
    ensures Repeats(n) <==> n % PERIOD == 0
  {
    hide IsPower, Repeats;
    FullPeriod();
    var q, r := n / PERIOD, n % PERIOD;
    assert n == PERIOD * q + r;
    RepeatsMultiple(PERIOD, q);
    RepeatsRest(PERIOD * q, r);
    RepeatsNever();
    if Repeats(r) && r > 0 {
      var g, i, k := CommonRepeat(r, PERIOD);
      LargerFactor(g, i, k);
      NoShorterFactor(g, k);
    }
  }

  // ----- Two errors --------------------------------------------------------------------------------------

  predicate ExactlyAt(bits: seq<bool>, i: nat, j: nat) {
    forall k :: 0 <= k < |bits| ==> (bits[k] <==> k == i || k == j)
  }

  // The register with only the bit that is shifted out next.
  function Unit(n: nat): (r: seq<bool>)
    requires n > 0
    ensures |r| == n
  {
    [true] + Zeros(n - 1)
  }

  lemma FeedFalse(poly: seq<bool>, r: seq<bool>)
    requires |r| == |poly| > 0
    ensures Feed(poly, r, false) == Shift(poly, r)
  {
    assert [r[0] != false] + r[1..] == r;
  }

  lemma FeedTrue(poly: seq<bool>, r: seq<bool>)
    requires |r| == |poly| > 0 && poly[|poly| - 1]
    ensures AllFalse(Feed(poly, r, true)) <==> r == Unit(|poly|)
  {
    var flipped := [r[0] != true] + r[1..];
    ShiftKeepsNonzero(poly, flipped);
    if AllFalse(flipped) {
      assert forall k :: 1 <= k < |r| ==> !flipped[k];
      assert !flipped[0] && r == Unit(|poly|);
    }
    hide Shift;
  }

  // One more error cancels what is in the register exactly if it has moved to the end by then.
  lemma {:induction false} OneBitLeft(poly: seq<bool>, r: seq<bool>, bits: seq<bool>, i: nat)
    requires |r| == |poly| > 0 && poly[|poly| - 1] && i < |bits| && ExactlyAt(bits, i, i)
    ensures AllFalse(FeedAll(poly, r, bits)) <==> Shifts(poly, r, i) == Unit(|poly|)
    decreases i
  {
    hide Shift, Feed, Unit;
    if i == 0 {
      FeedTrue(poly, r);
      FeedZeros(poly, Feed(poly, r, true), bits[1..]);
    } else {
      FeedFalse(poly, r);
      OneBitLeft(poly, Shift(poly, r), bits[1..], i - 1);
    }
  }

  lemma FirstBit(poly: seq<bool>, r: seq<bool>)
    requires |r| == |poly| > 0 && AllFalse(r)
    ensures Feed(poly, r, true) == Shift(poly, Unit(|poly|)) && AllFalse(Shift(poly, r))
  {
    assert [r[0] != true] + r[1..] == Unit(|poly|);
  }

  // Two errors cancel exactly if the register returns to where it was between them.
  lemma {:induction false} TwoBitsCancel(poly: seq<bool>, r: seq<bool>, bits: seq<bool>, i: nat, j: nat)
    requires |r| == |poly| > 0 && poly[|poly| - 1] && AllFalse(r) && i < j < |bits| && ExactlyAt(bits, i, j)
    ensures AllFalse(FeedAll(poly, r, bits)) <==> Shifts(poly, Unit(|poly|), j - i) == Unit(|poly|)
    decreases i
  {
    hide Shift, Feed, Unit;
    FirstBit(poly, r);
    if i == 0 {
      OneBitLeft(poly, Shift(poly, Unit(|poly|)), bits[1..], j - 1);
    } else {
      FeedFalse(poly, r);
      TwoBitsCancel(poly, Shift(poly, r), bits[1..], i - 1, j - 1);
    }
  }

  // ----- Frames -------------------------------------------------------------------------------------------

  // The lowest bit of the register, which is x to the fifteenth, is the one that is shifted out next.
  lemma {:induction false} UnitIsPower()
    ensures Register(0x0001, 16) == Unit(16) && IsPower(15, 0x0001)
  {
    UnitRegister();
    hide IsPower;
    First();
    Next(1, 0x4000, 0x1000);
    Next(3, 0x1000, 0x0100);
    Next(7, 0x0100, 0x0001);
  }

  lemma UnitRegister()
    ensures Register(0x0001, 16) == Unit(16)
  {
    Unfold(0x0001, 16);
    ZeroBits(15);
    hide Register;
  }

  lemma {:induction false} UnitReturns(n: nat)
    ensures Steps(0x0001, n) == 0x0001 <==> Repeats(n)
  {
    hide Steps, Step;
    UnitIsPower();
    FullPeriod();
    PowersAdd(15, n);
    PowersAdd(n, 15);
    PowersAdd(15, PERIOD - 15);
    PowersAdd(n, PERIOD);
    PowersAdd(15 + n, PERIOD - 15);
    assert 15 + n + (PERIOD - 15) == n + PERIOD;
    PowersAdd(PERIOD, n);
  }

  lemma PowersAdd(m: nat, n: nat)
    ensures Steps(ONE, m + n) == Steps(Steps(ONE, m), n)
  {
    StepsAdd(ONE, m, n);
  }

  lemma {:induction false} UnitShifts(n: nat)
    ensures |POLY| == 16
    ensures Shifts(POLY, Unit(16), n) == Unit(16) <==> n % PERIOD == 0
  {
    hide Register, Shifts, Steps, Repeats, Register16.Fits, Unit;
    UnitRegister();
    StepsAreShifts(0x0001, n);
    var c := Steps(0x0001, n);
    AllFit(c);
    AllFit(0x0001);
    if Register(c, 16) == Register(0x0001, 16) {
      SameBits(c, 0x0001, 16);
    }
    UnitReturns(n);
    RepeatsExactly(n);
  }

  // Next to an accepted frame, another one of its length is accepted if the difference leaves no remainder.
  lemma {:induction false} RemainderDecides(f: seq<bv8>, g: seq<bv8>)
    requires |f| == |g| && Accepted(f)
    ensures Accepted(g) <==> AllFalse(FeedAll(POLY, Zeros(16), Difference(BitsOf(f), BitsOf(g))))
  {
    hide Register, CrcFrom, Difference, FeedAll, BitsOf, Accepted, Register16.Fits;
    AcceptedIsZeroResidue(f);
    AcceptedIsZeroResidue(g);
    var c := Crc(g);
    CrcIsRemainder(0xFFFF, f, 0);
    CrcIsRemainder(0xFFFF, g, c);
    var ones, zero, last := Register(0xFFFF, 16), Register(0, 16), Register(c, 16);
    FeedAllLinear(POLY, ones, ones, BitsOf(f), BitsOf(g));
    assert Difference(ones, ones) == Zeros(16);
    var d := Difference(zero, last);
    if AllFalse(d) {
      assert forall k :: 0 <= k < 16 ==> zero[k] == last[k];
      AllFit(c);
      AllFit(0);
      SameBits(c, 0, 16);
    } else {
      assert zero != last;
    }
  }

  // Two errors turn an accepted frame into an accepted frame exactly if they lie a multiple of 32767 bits apart.
  lemma {:induction false} TwoErrors(f: seq<bv8>, g: seq<bv8>, i: nat, j: nat)
    requires |f| == |g| && Accepted(f) && i < j < 8 * |f| && ExactlyAt(Difference(BitsOf(f), BitsOf(g)), i, j)
    ensures Accepted(g) <==> (j - i) % PERIOD == 0
  {
    hide CrcFrom, Difference, FeedAll, BitsOf, Accepted, Shifts, Unit, ExactlyAt;
    RemainderDecides(f, g);
    PolyFacts();
    TwoBitsCancel(POLY, Zeros(16), Difference(BitsOf(f), BitsOf(g)), i, j);
    UnitShifts(j - i);
  }

  // Where the one or two set bits of a string are.
  lemma {:induction false} OneIsSet(bits: seq<bool>) returns (i: nat)
    requires Count(bits) == 1
    ensures i < |bits| && ExactlyAt(bits, i, i)
  {
    if bits[0] {
      NoneIsSet(bits[1..]);
      i := 0;
    } else {
      i := OneIsSet(bits[1..]);
      i := i + 1;
    }
  }

  lemma {:induction false} NoneIsSet(bits: seq<bool>)
    requires Count(bits) == 0
    ensures AllFalse(bits)
  {
    if bits != [] {
      NoneIsSet(bits[1..]);
    }
  }

  lemma {:induction false} TwoAreSet(bits: seq<bool>) returns (i: nat, j: nat)
    requires Count(bits) == 2
    ensures i < j < |bits| && ExactlyAt(bits, i, j)
  {
    if bits[0] {
      j := OneIsSet(bits[1..]);
      i, j := 0, j + 1;
    } else {
      i, j := TwoAreSet(bits[1..]);
      i, j := i + 1, j + 1;
    }
  }

  lemma {:induction false} SomeDiffer(xs: seq<bool>, ys: seq<bool>)
    requires |xs| == |ys| && xs != ys
    ensures Count(Difference(xs, ys)) > 0
  {
    var d := Difference(xs, ys);
    var k :| 0 <= k < |xs| && xs[k] != ys[k];
    assert d[k];
    if Count(d) == 0 {
      NoneIsSet(d);
    }
  }

  // In frames short enough, two errors that cancel have no room; three are odd.
  lemma {:induction false} FourBitsDiffer(f: seq<bv8>, g: seq<bv8>)
    requires |f| == |g| <= 4095 && Accepted(f) && Accepted(g) && f != g
    ensures Count(Difference(BitsOf(f), BitsOf(g))) >= 4
  {
    hide CrcFrom, Difference, BitsOf, Accepted, Count, ExactlyAt;
    OddErrorsDetected(f, g);
    DifferentBits(f, g);
    var bits := Difference(BitsOf(f), BitsOf(g));
    SomeDiffer(BitsOf(f), BitsOf(g));
    if Count(bits) == 2 {
      var i, j := TwoAreSet(bits);
      TwoErrors(f, g, i, j);
    }
  }

  // ----- The bound is exact ------------------------------------------------------------------------------

  lemma {:induction false} BitAt(s: seq<bv8>, k: nat, i: nat)
    requires k < |s| && i < 8
    ensures BitsOf(s)[8 * k + i] == ByteBits(s[k])[i]
    decreases k
  {
    hide *;
    BitsOfFirst(s);
    var first, rest := ByteBits(s[0]), BitsOf(s[1..]);
    if k == 0 {
      assert (first + rest)[i] == first[i];
    } else {
      BitAt(s[1..], k - 1, i);
      assert (first + rest)[8 * k + i] == rest[8 * (k - 1) + i];
    }
  }

  lemma BitsOfFirst(s: seq<bv8>)
    requires s != []
    ensures BitsOf(s) == ByteBits(s[0]) + BitsOf(s[1..])
  {}

  // A word with one bit at this place.
  predicate MaskAt(m: bv8, place: nat)
    decreases place
  {
    if place == 0 then m == 1 else m & 1 == 0 && MaskAt(m >> 1, place - 1)
  }

  lemma FlipLow(b: bv8, m: bv8, c: bv8)
    requires c == b ^ m
    ensures m == 1 ==> c >> 1 == b >> 1 && ((c & 1 == 1) != (b & 1 == 1))
    ensures m & 1 == 0 ==> c >> 1 == (b >> 1) ^ (m >> 1) && ((c & 1 == 1) == (b & 1 == 1))
  {}

  lemma LowBitsAre(b: bv8, half: bv8, low: bool, n: nat)
    requires n > 0 && half == b >> 1 && low == (b & 1 == 1)
    ensures LowBits(b, n) == [low] + LowBits(half, n - 1)
  {}

  lemma MaskHalves(m: bv8, place: nat)
    requires MaskAt(m, place)
    ensures if place == 0 then m == 1 else m & 1 == 0 && MaskAt(m >> 1, place - 1)
  {}

  lemma {:induction false} Flipped(b: bv8, m: bv8, c: bv8, n: nat, place: nat, i: nat)
    requires c == b ^ m && MaskAt(m, place) && place < n && i < n
    ensures LowBits(c, n)[i] != LowBits(b, n)[i] <==> i == place
    decreases n
  {
    hide *;
    var b1, c1, x, y := b >> 1, c >> 1, b & 1 == 1, c & 1 == 1;
    LowBitsAre(b, b1, x, n);
    LowBitsAre(c, c1, y, n);
    FlipLow(b, m, c);
    MaskHalves(m, place);
    if place > 0 && i > 0 {
      Flipped(b1, m >> 1, c1, n - 1, place - 1, i - 1);
    }
  }

  lemma EndMasks()
    ensures MaskAt(0x01, 0) && MaskAt(0x80, 7)
  {
    assert MaskAt(0x02, 1) && MaskAt(0x04, 2);
    assert MaskAt(0x08, 3) && MaskAt(0x10, 4);
    assert MaskAt(0x20, 5) && MaskAt(0x40, 6);
  }

  // An accepted frame with its first bit and the bit 32767 places further on changed.
  function Changed(f: seq<bv8>): (g: seq<bv8>)
    requires |f| >= 4096
    ensures |g| == |f|
  {
    f[0 := f[0] ^ 0x01][4095 := f[4095] ^ 0x80]
  }

  lemma ByteChanged(f: seq<bv8>, byte: nat, i: nat)
    requires |f| >= 4096 && byte < |f| && i < 8
    ensures ByteBits(Changed(f)[byte])[i] != ByteBits(f[byte])[i] <==> (byte == 0 && i == 0) || (byte == 4095 && i == 7)
  {
    hide LowBits, MaskAt;
    EndMasks();
    if byte == 0 {
      Flipped(f[0], 0x01, Changed(f)[0], 8, 0, i);
    } else if byte == 4095 {
      Flipped(f[4095], 0x80, Changed(f)[4095], 8, 7, i);
    }
  }

  lemma {:induction false} ChangedAt(f: seq<bv8>, byte: nat, i: nat)
    requires |f| >= 4096 && byte < |f| && i < 8
    ensures BitsOf(Changed(f))[8 * byte + i] != BitsOf(f)[8 * byte + i] <==>
            8 * byte + i == 0 || 8 * byte + i == PERIOD
  {
    hide ByteBits, BitsOf, Changed;
    BitAt(f, byte, i);
    BitAt(Changed(f), byte, i);
    ByteChanged(f, byte, i);
  }

  lemma {:induction false} ChangedIsAccepted(f: seq<bv8>)
    requires |f| >= 4096 && Accepted(f)
    ensures Accepted(Changed(f)) && Changed(f) != f && Count(Difference(BitsOf(f), BitsOf(Changed(f)))) == 2
  {
    hide CrcFrom, Difference, BitsOf, Accepted, Count, Changed;
    var d := Difference(BitsOf(f), BitsOf(Changed(f)));
    forall k | 0 <= k < |d| ensures d[k] <==> k == 0 || k == PERIOD {
      assert k == 8 * (k / 8) + k % 8;
      ChangedAt(f, k / 8, k % 8);
    }
    TwoErrors(f, Changed(f), 0, PERIOD);
    TwoCounted(d, 0, PERIOD);
    ChangedAt(f, 0, 0);
  }

  lemma {:induction false} TwoCounted(bits: seq<bool>, i: nat, j: nat)
    requires i < j < |bits| && ExactlyAt(bits, i, j)
    ensures Count(bits) == 2
    decreases i
  {
    if i > 0 {
      TwoCounted(bits[1..], i - 1, j - 1);
    } else {
      OneCounted(bits[1..], j - 1);
    }
  }

  lemma {:induction false} OneCounted(bits: seq<bool>, i: nat)
    requires i < |bits| && ExactlyAt(bits, i, i)
    ensures Count(bits) == 1
    decreases i
  {
    if i > 0 {
      OneCounted(bits[1..], i - 1);
    } else {
      CountOfZeros(bits[1..]);
    }
  }

  predicate DifferInFour(f: seq<bv8>, g: seq<bv8>)
    requires |f| == |g|
  {
    Count(Difference(BitsOf(f), BitsOf(g))) >= 4
  }

  // Any two accepted frames of this length differ in at least four bits exactly up to 4095 bytes.
  lemma {:induction false} DistanceFourExactly(length: nat)
    ensures (forall f: seq<bv8>, g: seq<bv8> ::
               |f| == |g| == length && Accepted(f) && Accepted(g) && f != g ==> DifferInFour(f, g)) <==>
            length <= 4095
  {
    hide Accepted, BitsOf, Difference, Count, WithCrc, Changed;
    if length <= 4095 {
      forall f: seq<bv8>, g: seq<bv8> | |f| == |g| == length && Accepted(f) && Accepted(g) && f != g
        ensures DifferInFour(f, g)
      {
        FourBitsDiffer(f, g);
      }
    } else {
      var payload := seq(length - 2, i => 0 as bv8);
      OwnFrameAccepted(payload);
      FrameLength(payload);
      var f := WithCrc(payload);
      ChangedIsAccepted(f);
      assert !DifferInFour(f, Changed(f));
    }
  }

  lemma FrameLength(payload: seq<bv8>)
    ensures |WithCrc(payload)| == |payload| + 2
  {}
}
