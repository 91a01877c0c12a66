/** Whole transforms: the radix-4 sequence of passes in both variants, the radix-4-by-2 split of
    cmsis_overwrite/arm_cfft_q31.c, and the inverse as the forward transform between two exchanges of real
    and imaginary parts. */
module Transforms {
  import opened Butterflies
  import opened Fft

  predicate PowerOf4(n: nat) { n == 1 || (n > 0 && n % 4 == 0 && PowerOf4(n / 4)) }

  // The table holds three quarters of a period of length * modifier points.
  predicate TableFor(coef: seq<Complex>, length: nat, modifier: nat) {
    modifier > 0 && 3 * (length * modifier) <= 4 * |coef|
  }

  // Through all passes span times modifier stays the same, so one table serves them all.
  lemma TableForPass(coef: seq<Complex>, n1: nat, modifier: nat)
    requires TableFor(coef, n1, modifier) && n1 % 4 == 0 && n1 > 0
    ensures 3 * ((n1 / 4 - 1) * modifier) < |coef|
    ensures TableFor(coef, n1 / 4, 4 * modifier)
  {
    var n2 := n1 / 4;
    assert n1 * modifier == 4 * (n2 * modifier);
    assert (n2 - 1) * modifier == n2 * modifier - modifier;
    assert n2 * (4 * modifier) == 4 * (n2 * modifier);
  }

  // ----- The radix-4 transform ----------------------------------------------------------------------------

  // The middle stages, from span n1 down to span 16.
  function MiddleStages(s: seq<Complex>, groups: nat, n1: nat, coef: seq<Complex>, modifier: nat, inverse: bool):
      (out: seq<Complex>)
    requires PowerOf4(n1) && groups > 0 && |s| == groups * n1 && TableFor(coef, n1, modifier)
    ensures |out| == |s|
    decreases n1
  {
    if n1 <= 4 then s else
    TableForPass(coef, n1, modifier);
    FourTimes(groups, n1);
    MiddleStages(PassOut(Pass(Middle, inverse, groups, n1 / 4, coef, modifier), s), 4 * groups, n1 / 4, coef,
                 4 * modifier, inverse)
  }

  lemma FourTimes(groups: nat, n1: nat)
    requires n1 % 4 == 0
    ensures 4 * groups * (n1 / 4) == groups * n1
  {
    var n2 := n1 / 4;
    assert 4 * groups * n2 == groups * (4 * n2);
  }

  predicate Radix4Ok(length: nat, coef: seq<Complex>, modifier: nat) {
    length >= 16 && PowerOf4(length) && TableFor(coef, length, modifier)
  }

  function Radix4(s: seq<Complex>, coef: seq<Complex>, modifier: nat, inverse: bool): (out: seq<Complex>)
    requires Radix4Ok(|s|, coef, modifier)
    ensures |out| == |s|
  {
    TableForPass(coef, |s|, modifier);
    var first := PassOut(Pass(First, inverse, 1, |s| / 4, coef, modifier), s);
    var middle := MiddleStages(first, 4, |s| / 4, coef, 4 * modifier, inverse);
    PassOut(Pass(Last, inverse, |s| / 4, 1, [], 0), middle)
  }

  // arm_radix4_butterfly_q31 and arm_radix4_butterfly_inverse_q31 with computed indices.
  method Radix4Index(a: array<Complex>, b: nat, length: nat, coef: seq<Complex>, modifier: nat, inverse: bool)
    requires b + length <= a.Length && Radix4Ok(length, coef, modifier)
    modifies a
    ensures a[b..b + length] == Radix4(old(a[b..b + length]), coef, modifier, inverse)
    ensures Outside(old(a[..]), a[..], b, length)
  {
    hide PassOut, MiddleStages, PowerOf4, TableFor;
    PowerFacts(length);
    TableForPass(coef, length, modifier);
    FirstStageIndex(a, b, length, coef, modifier, inverse);
    var n2: nat, twidCoefModifier: nat := length / 4, 4 * modifier;
    ghost var first, groups: nat := a[b..b + length], 4;
    var k := length / 4;
    while k > 4
      invariant k == n2 && k > 0 && groups > 0 && length == groups * n2
      invariant PowerOf4(n2) && TableFor(coef, n2, twidCoefModifier) && Outside(old(a[..]), a[..], b, length)
      invariant MiddleStages(a[b..b + length], groups, n2, coef, twidCoefModifier, inverse) ==
                MiddleStages(first, 4, length / 4, coef, 4 * modifier, inverse)
    {
      PowerFacts(n2);
      TableForPass(coef, n2, twidCoefModifier);
      FourTimes(groups, n2);
      ghost var now := a[b..b + length];
      MiddleStagesStep(now, groups, n2, coef, twidCoefModifier, inverse);
      n2 := n2 / 4;
      MiddleStageIndex(a, b, length, n2, coef, twidCoefModifier, inverse, groups);
      groups := 4 * groups;
      twidCoefModifier := 4 * twidCoefModifier;
      k := k / 4;
    }
    MiddleStagesEnd(a[b..b + length], groups, n2, coef, twidCoefModifier, inverse);
    LastStage(a, b, length, inverse);
  }

  // The same with walking pointers.
  method Radix4Pointer(a: array<Complex>, b: nat, length: nat, coef: seq<Complex>, modifier: nat, inverse: bool)
    requires b + length <= a.Length && Radix4Ok(length, coef, modifier)
    modifies a
    ensures a[b..b + length] == Radix4(old(a[b..b + length]), coef, modifier, inverse)
    ensures Outside(old(a[..]), a[..], b, length)
  {
    hide PassOut, MiddleStages, PowerOf4, TableFor;
    PowerFacts(length);
    TableForPass(coef, length, modifier);
    FirstStagePointer(a, b, length, coef, modifier, inverse);
    var n2: nat, twidCoefModifier: nat := length / 4, 4 * modifier;
    ghost var first, groups: nat := a[b..b + length], 4;
    var k := length / 4;
    while k > 4
      invariant k == n2 && k > 0 && groups > 0 && length == groups * n2
      invariant PowerOf4(n2) && TableFor(coef, n2, twidCoefModifier) && Outside(old(a[..]), a[..], b, length)
      invariant MiddleStages(a[b..b + length], groups, n2, coef, twidCoefModifier, inverse) ==
                MiddleStages(first, 4, length / 4, coef, 4 * modifier, inverse)
    {
      PowerFacts(n2);
      TableForPass(coef, n2, twidCoefModifier);
      FourTimes(groups, n2);
      ghost var now := a[b..b + length];
      MiddleStagesStep(now, groups, n2, coef, twidCoefModifier, inverse);
      n2 := n2 / 4;
      MiddleStagePointer(a, b, length, n2, coef, twidCoefModifier, inverse, groups);
      groups := 4 * groups;
      twidCoefModifier := 4 * twidCoefModifier;
      k := k / 4;
    }
    MiddleStagesEnd(a[b..b + length], groups, n2, coef, twidCoefModifier, inverse);
    LastStage(a, b, length, inverse);
  }

  lemma PowerFacts(n: nat)
    requires PowerOf4(n) && n >= 4
    ensures n % 4 == 0 && PowerOf4(n / 4) && n / 4 > 0
  {}

  lemma MiddleStagesStep(s: seq<Complex>, groups: nat, n1: nat, coef: seq<Complex>, modifier: nat, inverse: bool)
    requires n1 > 4 && PowerOf4(n1) && groups > 0 && |s| == groups * n1 && TableFor(coef, n1, modifier)
    ensures n1 % 4 == 0 && PowerOf4(n1 / 4) && TableFor(coef, n1 / 4, 4 * modifier) && 4 * groups * (n1 / 4) == |s|
    ensures var p := Pass(Middle, inverse, groups, n1 / 4, coef, modifier);
            PassOk(p) && Length(p) == |s| &&
            MiddleStages(s, groups, n1, coef, modifier, inverse) ==
              MiddleStages(PassOut(p, s), 4 * groups, n1 / 4, coef, 4 * modifier, inverse)
  {
    TableForPass(coef, n1, modifier);
    FourTimes(groups, n1);
    hide PassOut;
  }

  lemma MiddleStagesEnd(s: seq<Complex>, groups: nat, n1: nat, coef: seq<Complex>, modifier: nat, inverse: bool)
    requires n1 <= 4 && PowerOf4(n1) && groups > 0 && |s| == groups * n1 && TableFor(coef, n1, modifier)
    ensures MiddleStages(s, groups, n1, coef, modifier, inverse) == s
  {}

  // ----- The inverse is the forward transform between exchanges -------------------------------------------

  function SwapAll(s: seq<Complex>): (out: seq<Complex>)
    ensures |out| == |s| && forall i :: 0 <= i < |s| ==> out[i] == Swap(s[i])
  {
    seq(|s|, i requires 0 <= i < |s| => Swap(s[i]))
  }

  lemma SwapTwice(s: seq<Complex>)
    ensures SwapAll(SwapAll(s)) == s
  {}

  lemma {:induction false} InversePass(p: Pass, s: seq<Complex>)
    requires PassOk(p) && |s| == Length(p) && p.inverse
    ensures PassOut(p, s) == SwapAll(PassOut(p.(inverse := false), SwapAll(s)))
  {
    var f := p.(inverse := false);
    forall i: nat | i < |s| ensures PassAt(p, s, i) == Swap(PassAt(f, SwapAll(s), i)) {
      InversePoint(p, s, i);
    }
    hide PassAt;
  }

  lemma InversePoint(p: Pass, s: seq<Complex>, i: nat)
    requires PassOk(p) && |s| == Length(p) && p.inverse && i < |s|
    ensures PassAt(p, s, i) == Swap(PassAt(p.(inverse := false), SwapAll(s), i))
  {
    hide Butterfly, Row, Column, Place;
    ButterfliesPartition(i, p.groups, p.n2);
    var group, column := Row(i, p.n2) / 4, Column(i, p.n2);
    var f := p.(inverse := false);
    assert TwiddlesAt(f, column) == TwiddlesAt(p, column);
    FourPlaces(group, column, p.groups, p.n2);
    assert QuadAt(f, SwapAll(s), group, column) == SwapQuad(QuadAt(p, s, group, column));
    InverseButterfly(p.stage, QuadAt(p, s, group, column), TwiddlesAt(p, column));
  }

  lemma {:induction false} InverseMiddleStages(s: seq<Complex>, groups: nat, n1: nat, coef: seq<Complex>, modifier: nat)
    requires PowerOf4(n1) && groups > 0 && |s| == groups * n1 && TableFor(coef, n1, modifier)
    ensures MiddleStages(s, groups, n1, coef, modifier, true) ==
            SwapAll(MiddleStages(SwapAll(s), groups, n1, coef, modifier, false))
    decreases n1
  {
    hide PassOut, MiddleStages, SwapAll, TableFor, PowerOf4;
    if n1 <= 4 {
      MiddleStagesEnd(s, groups, n1, coef, modifier, true);
      MiddleStagesEnd(SwapAll(s), groups, n1, coef, modifier, false);
      SwapTwice(s);
    } else {
      MiddleStagesStep(s, groups, n1, coef, modifier, true);
      MiddleStagesStep(SwapAll(s), groups, n1, coef, modifier, false);
      var p := Pass(Middle, true, groups, n1 / 4, coef, modifier);
      InversePass(p, s);
      var out := PassOut(p.(inverse := false), SwapAll(s));
      InverseMiddleStages(SwapAll(out), 4 * groups, n1 / 4, coef, 4 * modifier);
      SwapTwice(out);
    }
  }

  // Bit for bit, scaling and wrap-around included.
  lemma {:induction false} InverseRadix4(s: seq<Complex>, coef: seq<Complex>, modifier: nat)
    requires Radix4Ok(|s|, coef, modifier)
    ensures Radix4(s, coef, modifier, true) == SwapAll(Radix4(SwapAll(s), coef, modifier, false))
  {
    hide PassOut, MiddleStages, SwapAll, TableFor, PowerOf4;
    PowerFacts(|s|);
    TableForPass(coef, |s|, modifier);
    var n2 := |s| / 4;
    var p := Pass(First, true, 1, n2, coef, modifier);
    InversePass(p, s);
    var first := PassOut(p.(inverse := false), SwapAll(s));
    InverseMiddleStages(SwapAll(first), 4, n2, coef, 4 * modifier);
    SwapTwice(first);
    var middle := MiddleStages(first, 4, n2, coef, 4 * modifier, false);
    InversePass(Pass(Last, true, n2, 1, [], 0), SwapAll(middle));
    SwapTwice(middle);
  }

  // ----- The radix-4-by-2 transform -----------------------------------------------------------------------

  // The rounding multiply, multiply-add and multiply-subtract macros of arm_math.h.
  datatype Rounding = Rounding(mul: (int, int) -> int, mulAdd: (int, int, int) -> int, mulSub: (int, int, int) -> int)

  function Quarter(z: Complex): Complex { Complex(Shr(z.re, 2), Shr(z.im, 2)) }

  // The sum of two points half the length apart.
  function PairSum(x: Complex, y: Complex): Complex {
    Complex(Add(Quarter(x).re, Quarter(y).re), Add(Quarter(y).im, Quarter(x).im))
  }

  // Their difference, rotated by the twiddle factor.
  function PairDifference(m: Rounding, inverse: bool, x: Complex, y: Complex, w: Complex): Complex {
    var xt, yt := Sub(Quarter(x).re, Quarter(y).re), Sub(Quarter(x).im, Quarter(y).im);
    var p0, p1 := m.mul(xt, w.re), m.mul(yt, w.re);
    if inverse then Complex(Double(m.mulSub(p0, yt, w.im)), Double(m.mulAdd(p1, xt, w.im)))
    else Complex(Double(m.mulAdd(p0, yt, w.im)), Double(m.mulSub(p1, xt, w.im)))
  }

  function CombineAt(m: Rounding, inverse: bool, s: seq<Complex>, coef: seq<Complex>, i: nat): Complex
    requires |s| % 2 == 0 && |s| / 2 <= |coef| && i < |s|
  {
    var n2 := |s| / 2;
    if i < n2 then PairSum(s[i], s[i + n2]) else PairDifference(m, inverse, s[i - n2], s[i], coef[i - n2])
  }

  function Combine(m: Rounding, inverse: bool, s: seq<Complex>, coef: seq<Complex>): (out: seq<Complex>)
    requires |s| % 2 == 0 && |s| / 2 <= |coef|
    ensures |out| == |s|
  {
    seq(|s|, i requires 0 <= i < |s| => CombineAt(m, inverse, s, coef, i))
  }

  function DoubleAll(s: seq<Complex>): (out: seq<Complex>)
    ensures |out| == |s|
  {
    seq(|s|, i requires 0 <= i < |s| => Complex(Double(s[i].re), Double(s[i].im)))
  }

  predicate By2Ok(length: nat, coef: seq<Complex>) {
    length % 2 == 0 && length >= 32 && Radix4Ok(length / 2, coef, 2)
  }

  function Radix4By2(m: Rounding, inverse: bool, s: seq<Complex>, coef: seq<Complex>): (out: seq<Complex>)
    requires By2Ok(|s|, coef)
    ensures |out| == |s|
  {
    var n2 := |s| / 2;
    var combined := Combine(m, inverse, s, coef);
    DoubleAll(Radix4(combined[..n2], coef, 2, inverse) + Radix4(combined[n2..], coef, 2, inverse))
  }

  // The pair loop in place: a pair is read completely before its points are overwritten.
  method CombineInPlace(a: array<Complex>, m: Rounding, inverse: bool, coef: seq<Complex>)
    requires a.Length % 2 == 0 && a.Length / 2 <= |coef|
    modifies a
    ensures a[..] == Combine(m, inverse, old(a[..]), coef)
  {
    hide Add, Sub, Shr, Double;
    ghost var s := a[..];
    var n2, i := a.Length / 2, 0;
    while i < n2
      invariant 0 <= i <= n2
      invariant forall k :: 0 <= k < a.Length ==>
                  a[k] == if k < i || n2 <= k < n2 + i then CombineAt(m, inverse, s, coef, k) else s[k]
    {
      var w := coef[i];
      var l := i + n2;
      assert a[i] == s[i] && a[l] == s[l];
      var xt := Sub(Shr(a[i].re, 2), Shr(a[l].re, 2));
      a[i] := a[i].(re := Add(Shr(a[i].re, 2), Shr(a[l].re, 2)));
      var yt := Sub(Shr(a[i].im, 2), Shr(a[l].im, 2));
      a[i] := a[i].(im := Add(Shr(a[l].im, 2), Shr(a[i].im, 2)));
      var p0, p1 := m.mul(xt, w.re), m.mul(yt, w.re);
      if inverse {
        p0, p1 := m.mulSub(p0, yt, w.im), m.mulAdd(p1, xt, w.im);
      } else {
        p0, p1 := m.mulAdd(p0, yt, w.im), m.mulSub(p1, xt, w.im);
      }
      a[l] := Complex(Double(p0), Double(p1));
      assert a[i] == CombineAt(m, inverse, s, coef, i) && a[l] == CombineAt(m, inverse, s, coef, l);
      i := i + 1;
    }
  }

  // The closing loop takes two points at a time.
  method DoubleInPlace(a: array<Complex>)
    requires a.Length % 2 == 0
    modifies a
    ensures a[..] == DoubleAll(old(a[..]))
  {
    hide Double;
    ghost var s := a[..];
    for i := 0 to a.Length / 2
      invariant forall k :: 0 <= k < a.Length ==>
                  a[k] == if k < 2 * i then Complex(Double(s[k].re), Double(s[k].im)) else s[k]
    {
      a[2 * i] := Complex(Double(a[2 * i].re), Double(a[2 * i].im));
      a[2 * i + 1] := Complex(Double(a[2 * i + 1].re), Double(a[2 * i + 1].im));
    }
  }

  // arm_cfft_radix4by2_q31 and arm_cfft_radix4by2_inverse_q31: the two halves are transformed on their own.
  method Radix4By2InPlace(a: array<Complex>, m: Rounding, inverse: bool, coef: seq<Complex>)
    requires By2Ok(a.Length, coef)
    modifies a
    ensures a[..] == Radix4By2(m, inverse, old(a[..]), coef)
  {
    hide Combine, Radix4, DoubleAll, PowerOf4;
    HalfFits(a.Length, coef);
    var n2 := a.Length / 2;
    CombineInPlace(a, m, inverse, coef);
    ghost var combined := a[..];
    assert a[0..0 + n2] == combined[..n2];
    Radix4Pointer(a, 0, n2, coef, 2, inverse);
    assert a[n2..n2 + n2] == a[..][n2..] == combined[n2..];
    ghost var first := a[0..n2];
    Radix4Pointer(a, n2, n2, coef, 2, inverse);
    assert a[..n2] == first;
    assert a[..] == a[..n2] + a[n2..n2 + n2];
    DoubleInPlace(a);
  }

  lemma HalfFits(length: nat, coef: seq<Complex>)
    requires By2Ok(length, coef)
    ensures length / 2 <= |coef|
  {}

  lemma InversePair(m: Rounding, x: Complex, y: Complex, w: Complex)
    ensures PairSum(x, y) == Swap(PairSum(Swap(x), Swap(y)))
    ensures PairDifference(m, true, x, y, w) == Swap(PairDifference(m, false, Swap(x), Swap(y), w))
  {
    hide Shr, Sub, Double;
  }

  lemma InverseCombine(m: Rounding, s: seq<Complex>, coef: seq<Complex>)
    requires |s| % 2 == 0 && |s| / 2 <= |coef|
    ensures Combine(m, true, s, coef) == SwapAll(Combine(m, false, SwapAll(s), coef))
  {
    var n2 := |s| / 2;
    forall i: nat | i < |s| ensures CombineAt(m, true, s, coef, i) == Swap(CombineAt(m, false, SwapAll(s), coef, i)) {
      if i < n2 {
        InversePair(m, s[i], s[i + n2], Complex(0, 0));
      } else {
        InversePair(m, s[i - n2], s[i], coef[i - n2]);
      }
      hide PairSum, PairDifference;
    }
    hide CombineAt;
  }

  lemma SwapHalves(s: seq<Complex>, n2: nat)
    requires n2 <= |s|
    ensures SwapAll(s)[..n2] == SwapAll(s[..n2]) && SwapAll(s)[n2..] == SwapAll(s[n2..])
  {}

  lemma SwapConcat(a: seq<Complex>, b: seq<Complex>)
    ensures SwapAll(a + b) == SwapAll(a) + SwapAll(b)
  {}

  lemma SwapDouble(s: seq<Complex>)
    ensures DoubleAll(SwapAll(s)) == SwapAll(DoubleAll(s))
  {}

  lemma {:induction false} InverseRadix4By2(m: Rounding, s: seq<Complex>, coef: seq<Complex>)
    requires By2Ok(|s|, coef)
    ensures Radix4By2(m, true, s, coef) == SwapAll(Radix4By2(m, false, SwapAll(s), coef))
  {
    hide Combine, Radix4, DoubleAll, PowerOf4, TableFor, SwapAll;
    HalfFits(|s|, coef);
    var n2 := |s| / 2;
    InverseCombine(m, s, coef);
    var combined := Combine(m, false, SwapAll(s), coef);
    SwapHalves(combined, n2);
    InverseRadix4(SwapAll(combined[..n2]), coef, 2);
    InverseRadix4(SwapAll(combined[n2..]), coef, 2);
    SwapTwice(combined[..n2]);
    SwapTwice(combined[n2..]);
    var x, y := Radix4(combined[..n2], coef, 2, false), Radix4(combined[n2..], coef, 2, false);
    SwapConcat(x, y);
    SwapDouble(x + y);
  }

  // ----- arm_cfft_q31 -------------------------------------------------------------------------------------

  predicate IsRadix4Length(length: nat) { length in {16, 64, 256, 1024, 4096} }

  predicate IsBy2Length(length: nat) { length in {32, 128, 512, 2048} }

  // The twiddle table that belongs to a transform length.
  predicate TableOk(length: nat, coef: seq<Complex>) { 3 * length <= 4 * |coef| }

  lemma PowersOf4()
    ensures PowerOf4(16) && PowerOf4(64) && PowerOf4(256) && PowerOf4(1024) && PowerOf4(4096)
  {
    assert PowerOf4(16) && PowerOf4(64) && PowerOf4(256) && PowerOf4(1024);
  }

  lemma LengthOk(length: nat, coef: seq<Complex>)
    requires TableOk(length, coef)
    ensures IsRadix4Length(length) ==> Radix4Ok(length, coef, 1)
    ensures IsBy2Length(length) ==> By2Ok(length, coef)
  {
    PowersOf4();
  }

  // What arm_bitreversal_32 does with the table of the instance: point i is taken from place order[i].
  predicate OrderOk(length: nat, order: seq<nat>) {
    |order| == length && forall i :: 0 <= i < length ==> order[i] < length
  }

  function Reordered(s: seq<Complex>, order: seq<nat>): (out: seq<Complex>)
    requires OrderOk(|s|, order)
    ensures |out| == |s|
  {
    seq(|s|, i requires 0 <= i < |s| => s[order[i]])
  }

  // The transform in the order of the butterflies; any other length is left alone.
  function Transformed(m: Rounding, inverse: bool, s: seq<Complex>, coef: seq<Complex>): (out: seq<Complex>)
    requires TableOk(|s|, coef)
    ensures |out| == |s|
  {
    LengthOk(|s|, coef);
    if IsRadix4Length(|s|) then Radix4(s, coef, 1, inverse)
    else if IsBy2Length(|s|) then Radix4By2(m, inverse, s, coef)
    else s
  }

  // The whole of arm_cfft_q31. The reordering is asked for apart from the length, so that it also happens
  // to a buffer of any other length.
  function Cfft(m: Rounding, inverse: bool, bitReverse: bool, s: seq<Complex>, coef: seq<Complex>, order: seq<nat>):
      (out: seq<Complex>)
    requires TableOk(|s|, coef) && OrderOk(|s|, order)
    ensures |out| == |s|
  {
    var out := Transformed(m, inverse, s, coef);
    if bitReverse then Reordered(out, order) else out
  }

  method CfftInPlace(a: array<Complex>, m: Rounding, inverse: bool, bitReverse: bool, coef: seq<Complex>,
                     order: seq<nat>)
    requires TableOk(a.Length, coef) && OrderOk(a.Length, order)
    modifies a
    ensures a[..] == Cfft(m, inverse, bitReverse, old(a[..]), coef, order)
  {
    hide Radix4, Radix4By2, Radix4Ok, By2Ok;
    LengthOk(a.Length, coef);
    if IsRadix4Length(a.Length) {
      ghost var s := a[..];
      assert a[0..0 + a.Length] == s;
      Radix4Pointer(a, 0, a.Length, coef, 1, inverse);
      assert a[0..0 + a.Length] == a[..];
    } else if IsBy2Length(a.Length) {
      Radix4By2InPlace(a, m, inverse, coef);
    }
    assert a[..] == Transformed(m, inverse, old(a[..]), coef);
    hide Transformed;
    if bitReverse {
      forall i | 0 <= i < a.Length {
        a[i] := a[order[i]];
      }
    }
  }

  lemma InverseTransformed(m: Rounding, s: seq<Complex>, coef: seq<Complex>)
    requires TableOk(|s|, coef)
    ensures Transformed(m, true, s, coef) == SwapAll(Transformed(m, false, SwapAll(s), coef))
  {
    hide Radix4, Radix4By2, SwapAll, Radix4Ok, By2Ok;
    LengthOk(|s|, coef);
    if IsRadix4Length(|s|) {
      InverseRadix4(s, coef, 1);
    } else if IsBy2Length(|s|) {
      InverseRadix4By2(m, s, coef);
    } else {
      SwapTwice(s);
    }
  }

  lemma SwapReordered(s: seq<Complex>, order: seq<nat>)
    requires OrderOk(|s|, order)
    ensures Reordered(SwapAll(s), order) == SwapAll(Reordered(s, order))
  {}

  // For every length, buffer and table, reordered or not, the inverse transform is the forward transform
  // with real and imaginary parts exchanged before and after.
  lemma {:induction false} InverseCfft(m: Rounding, bitReverse: bool, s: seq<Complex>, coef: seq<Complex>,
                                       order: seq<nat>)
    requires TableOk(|s|, coef) && OrderOk(|s|, order)
    ensures Cfft(m, true, bitReverse, s, coef, order) ==
            SwapAll(Cfft(m, false, bitReverse, SwapAll(s), coef, order))
  {
    InverseTransformed(m, s, coef);
    SwapReordered(Transformed(m, false, SwapAll(s), coef), order);
    hide Transformed, SwapAll, Reordered;
  }
}
