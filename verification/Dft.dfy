/** What the passes compute: each butterfly is a four-point Fourier transform, and all passes together give
    every output place the bin whose number has the bits of the place reversed. */
module Dft {
  import opened Quotients
  import opened Butterflies
  import opened Fft
  import opened Transforms

  // ----- Exact arithmetic -------------------------------------------------------------------------

  function Plus(y: Complex, z: Complex): Complex { Complex(y.re + z.re, y.im + z.im) }

  // Times the imaginary unit for the inverse transform, its negative for the forward one.
  function TimesRoot(z: Complex, inverse: bool): Complex {
    if inverse then Complex(-z.im, z.re) else Complex(z.im, -z.re)
  }

  // Times its n-th power.
  function Turned(z: Complex, inverse: bool, n: nat): Complex {
    if n == 0 then z else TimesRoot(Turned(z, inverse, n - 1), inverse)
  }

  // The first n terms of the k-th sum of a four-point transform.
  function Terms(q: Quad, inverse: bool, k: nat, n: nat): Complex {
    if n == 0 then Complex(0, 0) else Plus(Terms(q, inverse, k, n - 1), Turned(Pick(q, n - 1), inverse, (n - 1) * k))
  }

  function FourPoint(q: Quad, inverse: bool, k: nat): Complex { Terms(q, inverse, k, 4) }

  function Times(y: Complex, z: Complex): Complex { Complex(y.re * z.re - y.im * z.im, y.re * z.im + y.im * z.re) }

  function Conjugate(z: Complex): Complex { Complex(z.re, -z.im) }

  function Wrapped(z: Complex): Complex { Complex(Wrap(z.re), Wrap(z.im)) }

  // Division that rounds down.
  function DividedBy(z: Complex, n: nat): Complex
    requires n > 0
  {
    Complex(z.re / n, z.im / n)
  }

  // The place of a butterfly holds the bin whose number has the two bits exchanged.
  function Bin(place: nat): nat { 2 * (place % 2) + place / 2 % 2 }

  lemma {:induction false} FullTurn(z: Complex, inverse: bool, n: nat)
    ensures Turned(z, inverse, n + 4) == Turned(z, inverse, n)
  {
    hide TimesRoot;
    FourTurns(Turned(z, inverse, n), inverse);
    assert Turned(z, inverse, n + 2) == TimesRoot(Turned(z, inverse, n + 1), inverse);
    assert Turned(z, inverse, n + 3) == TimesRoot(Turned(z, inverse, n + 2), inverse);
  }

  lemma FourTurns(z: Complex, inverse: bool)
    ensures TimesRoot(TimesRoot(TimesRoot(TimesRoot(z, inverse), inverse), inverse), inverse) == z
  {}

  // One, two and three turns.
  lemma Turns(z: Complex, inverse: bool)
    ensures Turned(z, inverse, 0) == z == Turned(z, inverse, 4)
    ensures Turned(z, inverse, 1) == TimesRoot(z, inverse) == Turned(z, inverse, 9)
    ensures Turned(z, inverse, 2) == Complex(-z.re, -z.im) == Turned(z, inverse, 6)
    ensures Turned(z, inverse, 3) == TimesRoot(Complex(-z.re, -z.im), inverse)
  {
    FullTurn(z, inverse, 0);
    FullTurn(z, inverse, 1);
    FullTurn(z, inverse, 2);
    FullTurn(z, inverse, 5);
    assert Turned(z, inverse, 1) == TimesRoot(z, inverse);
    assert Turned(z, inverse, 2) == TimesRoot(TimesRoot(z, inverse), inverse);
  }

  lemma FourTerms(q: Quad, inverse: bool, k: nat)
    ensures FourPoint(q, inverse, k) ==
            Plus(Plus(Plus(Turned(q.p0, inverse, 0), Turned(q.p1, inverse, k)), Turned(q.p2, inverse, 2 * k)),
                 Turned(q.p3, inverse, 3 * k))
  {
    PlusZero(Turned(q.p0, inverse, 0 * k));
    hide Turned, Plus;
    assert Terms(q, inverse, k, 1) == Plus(Complex(0, 0), Turned(q.p0, inverse, 0 * k));
    assert Terms(q, inverse, k, 2) == Plus(Terms(q, inverse, k, 1), Turned(q.p1, inverse, 1 * k));
    assert Terms(q, inverse, k, 3) == Plus(Terms(q, inverse, k, 2), Turned(q.p2, inverse, 2 * k));
  }

  lemma PlusZero(z: Complex)
    ensures Plus(Complex(0, 0), z) == z
  {}

  // Written out: the signs and exchanges that the powers stand for.
  lemma FourPointIs(q: Quad, inverse: bool)
    ensures FourPoint(q, inverse, 0) == Plus(Plus(Plus(q.p0, q.p1), q.p2), q.p3)
    ensures FourPoint(q, inverse, 1) ==
            Plus(Plus(Plus(q.p0, TimesRoot(q.p1, inverse)), Complex(-q.p2.re, -q.p2.im)),
                 TimesRoot(Complex(-q.p3.re, -q.p3.im), inverse))
    ensures FourPoint(q, inverse, 2) ==
            Plus(Plus(Plus(q.p0, Complex(-q.p1.re, -q.p1.im)), q.p2), Complex(-q.p3.re, -q.p3.im))
    ensures FourPoint(q, inverse, 3) ==
            Plus(Plus(Plus(q.p0, TimesRoot(Complex(-q.p1.re, -q.p1.im), inverse)), Complex(-q.p2.re, -q.p2.im)),
                 TimesRoot(q.p3, inverse))
  {
    hide Turned, TimesRoot, Plus, FourPoint;
    FourTerms(q, inverse, 0);
    FourTerms(q, inverse, 1);
    FourTerms(q, inverse, 2);
    FourTerms(q, inverse, 3);
    Turns(q.p0, inverse);
    Turns(q.p1, inverse);
    Turns(q.p2, inverse);
    Turns(q.p3, inverse);
  }

  // The same by components, with s the sign of the imaginary unit.
  lemma FourPointParts(q: Quad, inverse: bool)
    ensures FourPoint(q, inverse, 0) ==
            Complex(q.p0.re + q.p1.re + q.p2.re + q.p3.re, q.p0.im + q.p1.im + q.p2.im + q.p3.im)
    ensures FourPoint(q, inverse, 2) ==
            Complex(q.p0.re - q.p1.re + q.p2.re - q.p3.re, q.p0.im - q.p1.im + q.p2.im - q.p3.im)
    ensures FourPoint(q, inverse, if inverse then 3 else 1) ==
            Complex(q.p0.re + q.p1.im - q.p2.re - q.p3.im, q.p0.im - q.p1.re - q.p2.im + q.p3.re)
    ensures FourPoint(q, inverse, if inverse then 1 else 3) ==
            Complex(q.p0.re - q.p1.im - q.p2.re + q.p3.im, q.p0.im + q.p1.re - q.p2.im - q.p3.re)
  {
    FourPointIs(q, inverse);
    hide FourPoint;
  }

  // ----- Wrapping sums ----------------------------------------------------------------------------

  lemma WrapShift(x: int, k: int)
    ensures Wrap(x + k * 0x1_0000_0000) == Wrap(x)
  {}

  lemma WrapOnce(x: int, y: int)
    ensures Wrap(Wrap(x) + y) == Wrap(x + y) && Wrap(Wrap(x) - y) == Wrap(x - y) && Wrap(y - Wrap(x)) == Wrap(y - x)
  {
    var k := (x + 0x8000_0000) / 0x1_0000_0000;
    assert Wrap(x) == x - k * 0x1_0000_0000;
    WrapShift(x + y, -k);
    WrapShift(x - y, -k);
    WrapShift(y - x, k);
    hide Wrap;
  }

  lemma Wrap4(a: int, b: int, c: int, d: int)
    ensures Add(Add(Add(a, b), c), d) == Wrap(a + b + c + d)
    ensures Sub(Add(Sub(a, b), c), d) == Wrap(a - b + c - d)
    ensures Sub(Sub(Add(a, b), c), d) == Wrap(a + b - c - d)
    ensures Add(Sub(Sub(a, b), c), d) == Wrap(a - b - c + d)
  {
    WrapOnce(a + b, c);
    WrapOnce(a + b + c, d);
    WrapOnce(a + b - c, d);
    WrapOnce(a - b, c);
    WrapOnce(a - b + c, d);
    WrapOnce(a - b - c, d);
    hide Wrap;
  }

  lemma WrapPairs(a: int, b: int, c: int, d: int)
    ensures Add(Add(a, c), Add(b, d)) == Wrap(a + b + c + d)
    ensures Sub(Add(a, c), Add(b, d)) == Wrap(a - b + c - d)
    ensures Add(Sub(a, c), Sub(b, d)) == Wrap(a + b - c - d)
    ensures Sub(Sub(a, c), Sub(b, d)) == Wrap(a - b - c + d)
  {
    WrapBoth(a + c, b + d);
    WrapBoth(a - c, b - d);
    hide Wrap;
  }

  lemma WrapBoth(x: int, y: int)
    ensures Add(Wrap(x), Wrap(y)) == Wrap(x + y) && Sub(Wrap(x), Wrap(y)) == Wrap(x - y)
  {
    WrapOnce(y, Wrap(x));
    WrapOnce(x, y);
    hide Wrap;
  }

  // ----- Butterflies ------------------------------------------------------------------------------

  // The last stage: the four-point transform of the four points as they are, on words that wrap.
  lemma LastIsFourPoint(q: Quad, inverse: bool, place: nat)
    requires place < 4
    ensures Pick(Untwiddled(inverse, q), place) == Wrapped(FourPoint(q, inverse, Bin(place)))
  {
    hide FourPoint, Add, Sub, Wrap;
    FourPointParts(q, inverse);
    Wrap4(q.p0.re, q.p1.re, q.p2.re, q.p3.re);
    Wrap4(q.p0.im, q.p1.im, q.p2.im, q.p3.im);
    Wrap4(q.p0.re, q.p1.im, q.p2.re, q.p3.im);
    Wrap4(q.p0.im, q.p1.re, q.p2.im, q.p3.re);
  }

  // The points of the first stage are scaled before they are added.
  function Scaled(stage: Stage, q: Quad): Quad {
    if stage.First? then Quad(DividedBy(q.p0, 16), DividedBy(q.p1, 16), DividedBy(q.p2, 16), DividedBy(q.p3, 16)) else q
  }

  // The k-th twiddle factor.
  function Factor(w: Twiddles, k: nat): Complex { if k == 1 then w.w1 else if k == 2 then w.w2 else w.w3 }

  lemma InputIs(stage: Stage, z: Complex)
    requires !stage.Last?
    ensures Complex(Input(stage, z.re), Input(stage, z.im)) == if stage.First? then DividedBy(z, 16) else z
  {}

  // The sums that the first and middle stages form before they scale and rotate.
  function Sums(inverse: bool, x: Quad): Quad {
    var sumX, sumY, difX, difY :=
      Add(x.p0.re, x.p2.re), Add(x.p0.im, x.p2.im), Sub(x.p0.re, x.p2.re), Sub(x.p0.im, x.p2.im);
    var crossX, crossY, dX, dY :=
      Add(x.p1.re, x.p3.re), Add(x.p1.im, x.p3.im), Sub(x.p1.re, x.p3.re), Sub(x.p1.im, x.p3.im);
    var plus, minus := Complex(Add(difX, dY), Sub(difY, dX)), Complex(Sub(difX, dY), Add(difY, dX));
    Quad(Complex(Add(sumX, crossX), Add(sumY, crossY)), Complex(Sub(sumX, crossX), Sub(sumY, crossY)),
         if inverse then minus else plus, if inverse then plus else minus)
  }

  lemma SumsAreFourPoint(inverse: bool, x: Quad, place: nat)
    requires place < 4
    ensures Pick(Sums(inverse, x), place) == Wrapped(FourPoint(x, inverse, Bin(place)))
  {
    hide FourPoint, Add, Sub, Wrap;
    FourPointParts(x, inverse);
    WrapPairs(x.p0.re, x.p1.re, x.p2.re, x.p3.re);
    WrapPairs(x.p0.im, x.p1.im, x.p2.im, x.p3.im);
    WrapPairs(x.p0.re, x.p1.im, x.p2.re, x.p3.im);
    WrapPairs(x.p0.im, x.p1.re, x.p2.im, x.p3.re);
  }

  lemma TwiddledIs(stage: Stage, inverse: bool, q: Quad, w: Twiddles)
    requires !stage.Last?
    ensures var v, t := Sums(inverse, Scaled(stage, q)), Twiddled(stage, inverse, q, w);
            && t.p0 == (if stage.Middle? then DividedBy(v.p0, 4) else v.p0)
            && t.p1 == Rotate(stage, inverse, v.p1.re, v.p1.im, w.w2)
            && t.p2 == Rotate(stage, inverse, v.p2.re, v.p2.im, w.w1)
            && t.p3 == Rotate(stage, inverse, v.p3.re, v.p3.im, w.w3)
  {
    InputIs(stage, q.p0);
    InputIs(stage, q.p1);
    InputIs(stage, q.p2);
    InputIs(stage, q.p3);
    hide Add, Sub, Wrap, Rotate, Input;
  }

  lemma Unscaled(q: Quad)
    ensures Scaled(Last, q) == q
  {}

  // What a butterfly leaves at one of its places. In the first and middle stages the first of the sums is scaled and
  // the k-th one rotated by the k-th twiddle factor.
  function ButterflyPoint(stage: Stage, inverse: bool, q: Quad, w: Twiddles, place: nat): Complex {
    var k := Bin(place);
    var sum := Wrapped(FourPoint(Scaled(stage, q), inverse, k));
    if stage.Last? || (k == 0 && stage.First?) then sum
    else if k == 0 then DividedBy(sum, 4)
    else Rotate(stage, inverse, sum.re, sum.im, Factor(w, k))
  }

  lemma ButterflyIsFourPoint(stage: Stage, inverse: bool, q: Quad, w: Twiddles, place: nat)
    requires place < 4
    ensures Pick(Butterfly(stage, inverse, q, w), place) == ButterflyPoint(stage, inverse, q, w, place)
  {
    hide FourPoint, Rotate, Untwiddled, Twiddled, Sums, Wrapped, Scaled, DividedBy;
    if stage.Last? {
      LastIsFourPoint(q, inverse, place);
      Unscaled(q);
    } else {
      SumsAreFourPoint(inverse, Scaled(stage, q), place);
      TwiddledIs(stage, inverse, q, w);
    }
  }

  // The upper words of a product, one part at a time rounded down.
  predicate UpperHalf(u: Complex, product: Complex) {
    -0x1_0000_0000 < product.re - u.re * 0x1_0000_0000 < 0x2_0000_0000 &&
    -0x1_0000_0000 < product.im - u.im * 0x1_0000_0000 < 0x2_0000_0000
  }

  function UpperWords(z: Complex, w: Complex, inverse: bool): Complex {
    if inverse then Complex(High(z.re, w.re) - High(z.im, w.im), High(z.im, w.re) + High(z.re, w.im))
    else Complex(High(z.re, w.re) + High(z.im, w.im), High(z.im, w.re) - High(z.re, w.im))
  }

  lemma UpperWordsAre(z: Complex, w: Complex, inverse: bool)
    ensures UpperHalf(UpperWords(z, w, inverse), Times(z, if inverse then w else Conjugate(w)))
  {
    MinusProduct(z, w);
    Floors(z.re * w.re, z.im * w.im);
    Floors(z.im * w.re, z.re * w.im);
  }

  lemma RotateIs(stage: Stage, inverse: bool, z: Complex, w: Complex)
    requires !stage.Last?
    ensures var u := UpperWords(z, w, inverse);
            Rotate(stage, inverse, z.re, z.im, w) ==
              if stage.First? then Complex(Double(Wrap(u.re)), Double(Wrap(u.im))) else DividedBy(Wrapped(u), 2)
  {
    hide High, Wrap, Double;
  }

  // A rotation takes the upper words of the exact product with the factor, which the forward transform conjugates,
  // and doubles or halves them.
  lemma RotateIsProduct(stage: Stage, inverse: bool, z: Complex, w: Complex) returns (u: Complex)
    requires !stage.Last?
    ensures UpperHalf(u, Times(z, if inverse then w else Conjugate(w)))
    ensures Rotate(stage, inverse, z.re, z.im, w) ==
            if stage.First? then Wrapped(Plus(Wrapped(u), Wrapped(u))) else DividedBy(Wrapped(u), 2)
  {
    hide Rotate, UpperHalf, UpperWords, Times, Conjugate, Wrap, Double;
    u := UpperWords(z, w, inverse);
    UpperWordsAre(z, w, inverse);
    RotateIs(stage, inverse, z, w);
    DoubledIs(u);
  }

  const WORD := 0x1_0000_0000

  lemma Floors(a: int, b: int)
    ensures 0 <= a + b - (a / WORD + b / WORD) * WORD < 2 * WORD
    ensures -WORD < a - b - (a / WORD - b / WORD) * WORD < WORD
  {}

  lemma DoubledIs(u: Complex)
    ensures Complex(Double(Wrap(u.re)), Double(Wrap(u.im))) == Wrapped(Plus(Wrapped(u), Wrapped(u)))
  {}

  lemma MinusProduct(z: Complex, w: Complex)
    ensures z.im * (-w.im) == -(z.im * w.im) && z.re * (-w.im) == -(z.re * w.im)
  {}

  // ----- One pass ---------------------------------------------------------------------------------

  // After a pass, every place of a group and column holds a sum over the group's points in this column; the
  // twiddle factor has the bin's number times the column times the modifier as its index.
  lemma PassIsFourPoint(p: Pass, s: seq<Complex>, group: nat, column: nat, place: nat)
    requires PassOk(p) && |s| == Length(p) && group < p.groups && column < p.n2 && place < 4
    ensures Place(4 * group + place, column, p.n2) < |s|
    ensures PassOut(p, s)[Place(4 * group + place, column, p.n2)] ==
            ButterflyPoint(p.stage, p.inverse, QuadAt(p, s, group, column), TwiddlesAt(p, column), place)
  {
    hide ButterflyPoint, Butterfly, Row, Column, Place, QuadAt, TwiddlesAt;
    FourPlaces(group, column, p.groups, p.n2);
    RowColumn(4 * group + place, column, p.n2);
    PlaceBelow(group, column, place, p);
    ButterflyIsFourPoint(p.stage, p.inverse, QuadAt(p, s, group, column), TwiddlesAt(p, column), place);
  }

  lemma PlaceBelow(group: nat, column: nat, place: nat, p: Pass)
    requires PassOk(p) && group < p.groups && column < p.n2 && place < 4
    ensures Place(4 * group + place, column, p.n2) < Length(p)
  {
    RowColumn(4 * group + place, column, p.n2);
    RowBelow(Place(4 * group + place, column, p.n2), 4 * p.groups, p.n2);
    hide Place, Row;
  }

  // The points and factors of a pass.
  lemma PassReads(p: Pass, s: seq<Complex>, group: nat, column: nat, place: nat)
    requires PassOk(p) && |s| == Length(p) && group < p.groups && column < p.n2 && place < 4
    ensures Place(4 * group + place, column, p.n2) < |s|
    ensures Pick(QuadAt(p, s, group, column), place) == s[Place(4 * group + place, column, p.n2)]
    ensures var ia, k := column * p.modifier, Bin(place);
            !p.stage.Last? && k > 0 ==> k * ia < |p.coef| && Factor(TwiddlesAt(p, column), k) == p.coef[k * ia]
  {
    hide Place;
    FourPlaces(group, column, p.groups, p.n2);
    if !p.stage.Last? {
      TableIndex(p, column);
    }
  }

  // ----- All passes -------------------------------------------------------------------------------

  // The passes of a transform in their order.
  function MiddlePasses(groups: nat, n1: nat, coef: seq<Complex>, modifier: nat, inverse: bool): seq<Pass>
    decreases n1
  {
    if n1 <= 4 then []
    else [Pass(Middle, inverse, groups, n1 / 4, coef, modifier)] +
         MiddlePasses(4 * groups, n1 / 4, coef, 4 * modifier, inverse)
  }

  function Passes(length: nat, coef: seq<Complex>, modifier: nat, inverse: bool): seq<Pass> {
    [Pass(First, inverse, 1, length / 4, coef, modifier)] +
    MiddlePasses(4, length / 4, coef, 4 * modifier, inverse) +
    [Pass(Last, inverse, length / 4, 1, [], 0)]
  }

  predicate AllOk(passes: seq<Pass>, length: nat) {
    forall i :: 0 <= i < |passes| ==> PassOk(passes[i]) && Length(passes[i]) == length
  }

  function RunPasses(passes: seq<Pass>, s: seq<Complex>): (out: seq<Complex>)
    requires AllOk(passes, |s|)
    ensures |out| == |s|
  {
    if passes == [] then s else RunPasses(passes[1..], PassOut(passes[0], s))
  }

  lemma {:induction false} RunConcat(xs: seq<Pass>, ys: seq<Pass>, s: seq<Complex>)
    requires AllOk(xs, |s|) && AllOk(ys, |s|)
    ensures AllOk(xs + ys, |s|) && RunPasses(xs + ys, s) == RunPasses(ys, RunPasses(xs, s))
    decreases |xs|
  {
    hide PassOut;
    if xs == [] {
      assert xs + ys == ys;
    } else {
      assert (xs + ys)[1..] == xs[1..] + ys;
      RunConcat(xs[1..], ys, PassOut(xs[0], s));
    }
  }

  lemma RunOne(p: Pass, s: seq<Complex>)
    requires PassOk(p) && Length(p) == |s|
    ensures RunPasses([p], s) == PassOut(p, s)
  {
    hide PassOut;
    assert RunPasses([p], s) == RunPasses([], PassOut(p, s));
  }

  lemma {:induction false} MiddleIsPasses(s: seq<Complex>, groups: nat, n1: nat, coef: seq<Complex>, modifier: nat,
                                          inverse: bool)
    requires PowerOf4(n1) && groups > 0 && |s| == groups * n1 && TableFor(coef, n1, modifier)
    ensures AllOk(MiddlePasses(groups, n1, coef, modifier, inverse), |s|)
    ensures MiddleStages(s, groups, n1, coef, modifier, inverse) ==
            RunPasses(MiddlePasses(groups, n1, coef, modifier, inverse), s)
    decreases n1
  {
    hide PassOut, MiddleStages, PowerOf4, TableFor;
    if n1 <= 4 {
      MiddleStagesEnd(s, groups, n1, coef, modifier, inverse);
    } else {
      MiddleStagesStep(s, groups, n1, coef, modifier, inverse);
      var p := Pass(Middle, inverse, groups, n1 / 4, coef, modifier);
      var rest := MiddlePasses(4 * groups, n1 / 4, coef, 4 * modifier, inverse);
      MiddleIsPasses(PassOut(p, s), 4 * groups, n1 / 4, coef, 4 * modifier, inverse);
      RunOne(p, s);
      RunConcat([p], rest, s);
    }
  }

  // A transform is the run of its passes.
  lemma {:induction false} Radix4IsPasses(s: seq<Complex>, coef: seq<Complex>, modifier: nat, inverse: bool)
    requires Radix4Ok(|s|, coef, modifier)
    ensures AllOk(Passes(|s|, coef, modifier, inverse), |s|)
    ensures Radix4(s, coef, modifier, inverse) == RunPasses(Passes(|s|, coef, modifier, inverse), s)
  {
    hide PassOut, MiddleStages, PowerOf4, TableFor, MiddlePasses;
    PowerFacts(|s|);
    TableForPass(coef, |s|, modifier);
    var n2 := |s| / 4;
    var first, last := Pass(First, inverse, 1, n2, coef, modifier), Pass(Last, inverse, n2, 1, [], 0);
    var middle := MiddlePasses(4, n2, coef, 4 * modifier, inverse);
    var t := PassOut(first, s);
    MiddleIsPasses(t, 4, n2, coef, 4 * modifier, inverse);
    RunOne(first, s);
    RunOne(last, RunPasses(middle, t));
    RunConcat([first], middle, s);
    RunConcat([first] + middle, [last], s);
  }

  // ----- Which bin a place holds ------------------------------------------------------------------

  // The exponent of the twiddle factor with which input n reaches output o through the passes, in steps of a circle
  // of `circle` steps: in each pass, the row of the input times the bin's number in quarter turns, and the index into
  // the table. After the pass the input's share is at the place in its column from which o is reached.
  function Exponent(passes: seq<Pass>, circle: nat, o: nat, n: nat): int {
    if passes == [] || passes[0].n2 == 0 then 0 else
    var p := passes[0];
    var r, column, k := Row(n, p.n2) % 4, Column(n, p.n2), Bin(Row(o, p.n2) % 4);
    r * k * (circle / 4) + k * (column * p.modifier) +
    Exponent(passes[1..], circle, o, Place(Row(o, p.n2), column, p.n2))
  }

  // The number with the base-4 digits of a place in reversed order, the two bits of each exchanged.
  function Reversed(o: nat, span: nat): nat
    decreases span
  {
    if span < 4 then 0 else Bin(o / (span / 4) % 4) + 4 * Reversed(o % (span / 4), span / 4)
  }

  // Two places in the same block of n1 points: their rows and columns within it.
  lemma BlockSplit(n: nat, n1: nat)
    requires n1 % 4 == 0 && n1 > 0
    ensures var n2 := n1 / 4;
            n % n1 == (n / n2 % 4) * n2 + n % n2 && n % n1 / n2 == n / n2 % 4 && n % n1 % n2 == n % n2 &&
            n / n1 == n / n2 / 4
  {
    var n2 := n1 / 4;
    var row, column := n / n2, n % n2;
    assert n == row * n2 + column;
    assert row == row / 4 * 4 + row % 4;
    Distribute(4 * (row / 4), row % 4, n2);
    Associate(4, row / 4, n2);
    RestBelow(row % 4, column, n2);
    QuotientUnique(n, n1, row / 4, (row % 4) * n2 + column);
    QuotientUnique((row % 4) * n2 + column, n2, row % 4, column);
  }

  lemma Distribute(x: int, y: int, n: int)
    ensures (x + y) * n == x * n + y * n
  {}

  lemma Associate(x: int, y: int, z: int)
    ensures x * y * z == x * (y * z) == y * (x * z)
  {}

  lemma Reorder(a: int, b: int, c: int, d: int)
    ensures a * b * (c * d) == a * c * (b * d)
  {
    Associate(a, b, c * d);
    Associate(b, c, d);
    Associate(a, c, b * d);
  }

  lemma RestBelow(digit: nat, column: nat, n2: nat)
    requires digit < 4 && column < n2
    ensures digit * n2 + column < 4 * n2
  {}

  // One digit of the input times the whole number of the bin: what does not go into this pass or the next ones is
  // a number of whole circles.
  lemma ExpandProduct(r: nat, n2: nat, column: nat, k: nat, rest: nat, modifier: nat)
    ensures (r * n2 + column) * (k + 4 * rest) * modifier ==
            r * k * (n2 * modifier) + k * (column * modifier) + column * rest * (4 * modifier) +
            r * rest * (4 * (n2 * modifier))
  {
    var x, y, m := r * n2, column, modifier;
    Associate(x + y, k + 4 * rest, m);
    Distribute(k, 4 * rest, m);
    Distribute(x, y, k * m + 4 * rest * m);
    Distribute(k * m, 4 * rest * m, x);
    Distribute(k * m, 4 * rest * m, y);
    Reorder(r, n2, k, m);
    Reorder(r, n2, 4 * rest, m);
    Associate(y, k, m);
    Associate(4, rest, m);
    Associate(rest, 4, m);
    Associate(y, rest, 4 * m);
    Associate(r, 4 * rest, n2 * m);
    Associate(4, rest, n2 * m);
    Associate(rest, 4, n2 * m);
    Associate(r, rest, 4 * (n2 * m));
  }

  // Whole circles do not count.
  lemma SameAngle(x: int, y: int, turns: int, circle: nat)
    requires circle > 0 && x == y + turns * circle
    ensures x % circle == y % circle
  {
    var q, r := y / circle, y % circle;
    assert y == q * circle + r;
    Distribute(q, turns, circle);
    QuotientUnique(x, circle, q + turns, r);
  }

  lemma SameAngles(x: int, y: int, z: int, circle: nat)
    requires circle > 0 && y % circle == z % circle
    ensures (x + y) % circle == (x + z) % circle
  {
    assert y == y / circle * circle + y % circle && z == z / circle * circle + z % circle;
    Distribute(y / circle, -(z / circle), circle);
    SameAngle(x + y, x + z, y / circle - z / circle, circle);
  }

  // The exponent that the transform of n1 points asks for between input n and output o of a block.
  function Angle(o: nat, n: nat, n1: nat, modifier: nat): int
    requires n1 > 0
  {
    (n % n1) * Reversed(o % n1, n1) * modifier
  }

  // One pass and the transforms of a quarter of the points on what it leaves.
  lemma AngleStep(o: nat, n: nat, n1: nat, modifier: nat, circle: nat)
    requires n1 >= 4 && n1 % 4 == 0 && circle == n1 * modifier
    ensures var n2 := n1 / 4;
            var r, column, k := Row(n, n2) % 4, Column(n, n2), Bin(Row(o, n2) % 4);
            && circle / 4 == n2 * modifier
            && Angle(o, n, n1, modifier) ==
                 r * k * (circle / 4) + k * (column * modifier) + Angle(o, column, n2, 4 * modifier) +
                 r * Reversed(o % n2, n2) * circle
  {
    hide Reversed, Bin;
    var n2 := n1 / 4;
    BlockSplit(n, n1);
    var r, column, k, rest := Row(n, n2) % 4, Column(n, n2), Bin(Row(o, n2) % 4), Reversed(o % n2, n2);
    hide Row, Column;
    ReversedStep(o, n1);
    Associate(4, n2, modifier);
    ExpandProduct(r, n2, column, k, rest, modifier);
    Itself(column, n2);
  }

  lemma Itself(x: nat, n: nat)
    requires x < n
    ensures x % n == x
  {}

  lemma ReversedStep(o: nat, n1: nat)
    requires n1 >= 4 && n1 % 4 == 0
    ensures var n2 := n1 / 4;
            Reversed(o % n1, n1) == Bin(Row(o, n2) % 4) + 4 * Reversed(o % n2, n2)
  {
    ReversedIs(o % n1, n1);
    hide Reversed, Bin;
    BlockSplit(o, n1);
    Itself(o / (n1 / 4) % 4, 4);
  }

  lemma ReversedIs(x: nat, span: nat)
    requires span >= 4
    ensures Reversed(x, span) == Bin(x / (span / 4) % 4) + 4 * Reversed(x % (span / 4), span / 4)
  {}

  lemma ExponentStep(p: Pass, rest: seq<Pass>, circle: nat, o: nat, n: nat)
    requires p.n2 > 0
    ensures var r, column, k := Row(n, p.n2) % 4, Column(n, p.n2), Bin(Row(o, p.n2) % 4);
            Exponent([p] + rest, circle, o, n) ==
              r * k * (circle / 4) + k * (column * p.modifier) +
              Exponent(rest, circle, o, Place(Row(o, p.n2), column, p.n2))
  {
    assert ([p] + rest)[1..] == rest;
    hide Bin, Row, Column, Place;
  }

  // The passes that are left for blocks of n1 points.
  function RestOf(groups: nat, n1: nat, last: nat, coef: seq<Complex>, modifier: nat, inverse: bool): seq<Pass> {
    MiddlePasses(groups, n1, coef, modifier, inverse) + [Pass(Last, inverse, last, 1, [], 0)]
  }

  lemma {:induction false} RestReverses(groups: nat, n1: nat, last: nat, coef: seq<Complex>, modifier: nat,
                                        inverse: bool, circle: nat, o: nat, n: nat)
    requires PowerOf4(n1) && n1 >= 4 && modifier > 0 && circle == n1 * modifier && o / n1 == n / n1
    ensures circle > 0
    ensures Exponent(RestOf(groups, n1, last, coef, modifier, inverse), circle, o, n) % circle ==
            Angle(o, n, n1, modifier) % circle
    decreases n1
  {
    hide Reversed, Bin, Angle, PowerOf4, Exponent, Place;
    PowerFacts(n1);
    Positive(n1, modifier);
    AngleStep(o, n, n1, modifier, circle);
    BlockSplit(o, n1);
    BlockSplit(n, n1);
    var n2 := n1 / 4;
    var r, column, k := Row(n, n2) % 4, Column(n, n2), Bin(Row(o, n2) % 4);
    var passes := RestOf(groups, n1, last, coef, modifier, inverse);
    if n1 == 4 {
      LastExponent(last, inverse, circle, o, n);
      assert passes == [Pass(Last, inverse, last, 1, [], 0)];
      LastAngle(o, column, 4 * modifier);
      SameAngle(Angle(o, n, n1, modifier), r * k * (circle / 4), r * Reversed(o % n2, n2), circle);
    } else {
      SmallPower(n1);
      var p := Pass(Middle, inverse, groups, n2, coef, modifier);
      var rest := RestOf(4 * groups, n2, last, coef, 4 * modifier, inverse);
      assert passes == [p] + rest;
      ExponentStep(p, rest, circle, o, n);
      var m := Place(Row(o, n2), column, n2);
      RowColumn(Row(o, n2), column, n2);
      Associate(4, n2, modifier);
      RestReverses(4 * groups, n2, last, coef, 4 * modifier, inverse, circle, o, m);
      SameColumn(o, m, column, n2, 4 * modifier);
      var here := r * k * (circle / 4) + k * (column * modifier);
      SameAngles(here, Exponent(rest, circle, o, m), Angle(o, column, n2, 4 * modifier), circle);
      SameAngle(Angle(o, n, n1, modifier), here + Angle(o, column, n2, 4 * modifier), r * Reversed(o % n2, n2), circle);
    }
  }

  lemma Positive(x: nat, y: nat)
    requires x > 0 && y > 0
    ensures x * y > 0
  {}

  lemma SmallPower(n1: nat)
    requires PowerOf4(n1) && n1 >= 4 && n1 != 4
    ensures n1 >= 16 && PowerOf4(n1 / 4) && n1 / 4 >= 4
  {}

  lemma SameColumn(o: nat, m: nat, column: nat, n2: nat, modifier: nat)
    requires n2 > 0 && column < n2 && Column(m, n2) == column
    ensures Angle(o, m, n2, modifier) == Angle(o, column, n2, modifier)
  {
    hide Reversed;
    assert column % n2 == column;
  }

  lemma LastExponent(last: nat, inverse: bool, circle: nat, o: nat, n: nat)
    ensures Exponent([Pass(Last, inverse, last, 1, [], 0)], circle, o, n) == (n % 4) * Bin(o % 4) * (circle / 4)
    ensures Row(n, 1) == n && Column(n, 1) == 0 && Row(o, 1) == o
  {
    hide Bin;
    assert Exponent([], circle, o, Place(o, 0, 1)) == 0;
  }

  lemma LastAngle(o: nat, column: nat, modifier: nat)
    ensures column == 0 ==> Angle(o, column, 1, modifier) == 0
  {}

  // Every input reaches every output with the exponent of the Fourier transform: the number of the input times the
  // number of the bin that the output place holds, times the step of the table, in whole circles of the table.
  lemma {:induction false} PlacesHoldBins(length: nat, coef: seq<Complex>, modifier: nat, inverse: bool, o: nat, n: nat)
    requires Radix4Ok(length, coef, modifier) && o < length && n < length
    ensures length * modifier > 0
    ensures Exponent(Passes(length, coef, modifier, inverse), length * modifier, o, n) % (length * modifier) ==
            n * Reversed(o, length) * modifier % (length * modifier)
  {
    hide Reversed, Bin, Angle, PowerOf4, TableFor, Exponent, Row, Column, Place;
    PowerFacts(length);
    TableIsPositive(coef, length, modifier);
    Positive(length, modifier);
    var circle, n2 := length * modifier, length / 4;
    AngleStep(o, n, length, modifier, circle);
    var r, column, k := Row(n, n2) % 4, Column(n, n2), Bin(Row(o, n2) % 4);
    var p, rest := Pass(First, inverse, 1, n2, coef, modifier), RestOf(4, n2, n2, coef, 4 * modifier, inverse);
    assert Passes(length, coef, modifier, inverse) == [p] + rest;
    ExponentStep(p, rest, circle, o, n);
    var m := Place(Row(o, n2), column, n2);
    RowColumn(Row(o, n2), column, n2);
    Associate(4, n2, modifier);
    SameBlock(o, m, n2);
    RestReverses(4, n2, n2, coef, 4 * modifier, inverse, circle, o, m);
    SameColumn(o, m, column, n2, 4 * modifier);
    var here := r * k * (circle / 4) + k * (column * modifier);
    SameAngles(here, Exponent(rest, circle, o, m), Angle(o, column, n2, 4 * modifier), circle);
    SameAngle(Angle(o, n, length, modifier), here + Angle(o, column, n2, 4 * modifier), r * Reversed(o % n2, n2),
              circle);
    WholeAngle(o, n, length, modifier);
  }

  lemma SameBlock(o: nat, m: nat, n2: nat)
    requires n2 > 0 && Row(m, n2) == Row(o, n2)
    ensures o / n2 == m / n2
  {}

  lemma WholeAngle(o: nat, n: nat, length: nat, modifier: nat)
    requires o < length && n < length
    ensures Angle(o, n, length, modifier) == n * Reversed(o, length) * modifier
  {
    hide Reversed;
    assert o % length == o && n % length == n;
  }

  lemma TableIsPositive(coef: seq<Complex>, length: nat, modifier: nat)
    requires TableFor(coef, length, modifier)
    ensures modifier > 0
  {}

  // ----- The bits of a place ----------------------------------------------------------------------

  // The number with the bits of o below `span` in reversed order.
  function BitReversed(o: nat, span: nat): nat
    decreases span
  {
    if span < 2 then 0 else o / (span / 2) % 2 + 2 * BitReversed(o % (span / 2), span / 2)
  }

  lemma {:induction false} ReversedIsBitReversed(o: nat, span: nat)
    requires PowerOf4(span) && o < span
    ensures Reversed(o, span) == BitReversed(o, span)
    decreases span
  {
    hide Bin;
    if span >= 4 {
      PowerFacts(span);
      var n2 := span / 4;
      ReversedIs(o, span);
      BitReversedTwice(o, span);
      TopBits(o, span);
      ReversedIsBitReversed(o % n2, n2);
    } else {
      assert span == 1;
    }
    hide Reversed, BitReversed, PowerOf4;
  }

  lemma BitReversedTwice(o: nat, span: nat)
    requires span >= 4 && span % 4 == 0
    ensures BitReversed(o, span) ==
            o / (span / 2) % 2 +
            2 * (o % (span / 2) / (span / 4) % 2 + 2 * BitReversed(o % (span / 2) % (span / 4), span / 4))
  {
    var half := span / 2;
    assert half / 2 == span / 4 && half >= 2;
    assert BitReversed(o, span) == o / half % 2 + 2 * BitReversed(o % half, half);
    assert BitReversed(o % half, half) == o % half / (half / 2) % 2 + 2 * BitReversed(o % half % (half / 2), half / 2);
  }

  lemma TopBits(o: nat, span: nat)
    requires span >= 4 && span % 4 == 0 && o < span
    ensures var d := o / (span / 4) % 4;
            Bin(d) == o / (span / 2) % 2 + 2 * (o % (span / 2) / (span / 4) % 2) &&
            o % (span / 2) % (span / 4) == o % (span / 4)
  {
    var q := span / 4;
    var d, c := o / q, o % q;
    assert o == d * q + c;
    DigitBelow(d, q, c);
    Associate(2, d / 2, q);
    Distribute(2 * (d / 2), d % 2, q);
    DigitHalf(d % 2, q, c);
    QuotientUnique(o, span / 2, d / 2, (d % 2) * q + c);
    QuotientUnique((d % 2) * q + c, q, d % 2, c);
  }

  lemma DigitBelow(d: nat, q: nat, c: nat)
    requires d * q + c < 4 * q
    ensures d < 4
  {
    if d >= 4 {
      Distribute(4, d - 4, q);
    }
  }

  lemma DigitHalf(d: nat, q: nat, c: nat)
    requires d < 2 && c < q
    ensures d * q + c < 2 * q
  {}

  // ----- Twice a power of four --------------------------------------------------------------------

  // The pair loop forms the two-point transform of points half the length apart, scaled, and rotates the difference
  // by its twiddle factor; with exact multiplications, and doubled again.
  lemma PairIsTwoPoint(m: Rounding, inverse: bool, x: Complex, y: Complex, w: Complex)
    requires IsExact(m)
    ensures var p, q := DividedBy(x, 4), DividedBy(y, 4);
            var difference := Wrapped(Complex(p.re - q.re, p.im - q.im));
            var product := Times(difference, if inverse then w else Conjugate(w));
            && PairSum(x, y) == Wrapped(Plus(p, q))
            && PairDifference(m, inverse, x, y, w) == Wrapped(Plus(product, product))
  {
    var p, q := DividedBy(x, 4), DividedBy(y, 4);
    var difference := Wrapped(Complex(p.re - q.re, p.im - q.im));
    var product := Times(difference, if inverse then w else Conjugate(w));
    PairParts(m, inverse, difference, w);
    hide Wrap, Quarter, Double, Times, Conjugate, IsExact;
    QuarterIs(x);
    QuarterIs(y);
    DoubleIs(product.re);
    DoubleIs(product.im);
  }

  // The macros without rounding.
  ghost predicate IsExact(m: Rounding) {
    (forall a: int, b: int :: m.mul(a, b) == a * b) &&
    (forall a: int, b: int, c: int :: m.mulAdd(a, b, c) == a + b * c && m.mulSub(a, b, c) == a - b * c)
  }

  lemma PairParts(m: Rounding, inverse: bool, z: Complex, w: Complex)
    requires IsExact(m)
    ensures var p0, p1 := m.mul(z.re, w.re), m.mul(z.im, w.re);
            Times(z, if inverse then w else Conjugate(w)) ==
              if inverse then Complex(m.mulSub(p0, z.im, w.im), m.mulAdd(p1, z.re, w.im))
              else Complex(m.mulAdd(p0, z.im, w.im), m.mulSub(p1, z.re, w.im))
  {
    MinusProduct(z, w);
  }

  lemma DoubleIs(x: int)
    ensures Double(x) == Wrap(x + x)
  {}

  lemma QuarterIs(z: Complex)
    ensures Quarter(z) == DividedBy(z, 4)
  {}

  // The exponent through the pair loop and the transform of the half in which the output lies.
  function By2Exponent(half: nat, coef: seq<Complex>, inverse: bool, o: nat, n: nat): int
    requires half > 0
  {
    (if o < half then 0 else n / half * half + n % half) +
    Exponent(Passes(half, coef, 2, inverse), 2 * half, o % half, n % half)
  }

  // The first half holds the even bins, the second the odd ones.
  lemma {:induction false} By2PlacesHoldBins(half: nat, coef: seq<Complex>, inverse: bool, o: nat, n: nat)
    requires Radix4Ok(half, coef, 2) && o < 2 * half && n < 2 * half
    ensures half > 0
    ensures var bin := 2 * Reversed(o % half, half) + (if o < half then 0 else 1);
            By2Exponent(half, coef, inverse, o, n) % (2 * half) == n * bin % (2 * half)
  {
    hide Reversed, PowerOf4, TableFor, Passes, Exponent;
    var r, c := Reversed(o % half, half), n % half;
    var inner := Exponent(Passes(half, coef, 2, inverse), 2 * half, o % half, c);
    PlacesHoldBins(half, coef, 2, inverse, o % half, c);
    var outer := if o < half then 0 else n / half * half + c;
    SameAngles(outer, inner, c * r * 2, 2 * half);
    assert n == n / half * half + c;
    TwoHalves(n / half, half, c, r);
    SameAngle(n * (2 * r + (if o < half then 0 else 1)), outer + c * r * 2, n / half * r, 2 * half);
  }

  lemma TwoHalves(a: nat, half: nat, c: nat, r: nat)
    ensures (a * half + c) * (2 * r) == c * r * 2 + a * r * (2 * half)
    ensures (a * half + c) * (2 * r + 1) == (a * half + c) * (2 * r) + (a * half + c)
  {
    Distribute(a * half, c, 2 * r);
    assert a * half * (2 * r) == a * r * (2 * half);
    assert c * (2 * r) == c * r * 2;
    Distribute(2 * r, 1, a * half + c);
  }

  // ----- The transform of each length -------------------------------------------------------------

  lemma PowersAre(n: nat)
    requires PowerOf4(n) && 16 <= n <= 4096
    ensures n in {16, 64, 256, 1024, 4096}
  {
    PowerFacts(n);
    PowerFacts(n / 4);
    if n > 16 && n / 4 >= 16 {
      if n / 16 >= 4 { PowerFacts(n / 16); }
    }
  }

  // The sums of the points half the length apart, or their rotated differences.
  function Half(m: Rounding, inverse: bool, s: seq<Complex>, coef: seq<Complex>, odd: bool): (half: seq<Complex>)
    requires |s| % 2 == 0 && |s| / 2 <= |coef|
    ensures |half| == |s| / 2
  {
    var n2 := |s| / 2;
    seq(n2, i requires 0 <= i < n2 =>
      if odd then PairDifference(m, inverse, s[i], s[i + n2], coef[i]) else PairSum(s[i], s[i + n2]))
  }

  // A power of four is transformed by its passes.
  lemma PowerIsPasses(m: Rounding, inverse: bool, s: seq<Complex>, coef: seq<Complex>)
    requires TableOk(|s|, coef) && PowerOf4(|s|) && 16 <= |s| <= 4096
    ensures AllOk(Passes(|s|, coef, 1, inverse), |s|)
    ensures Transformed(m, inverse, s, coef) == RunPasses(Passes(|s|, coef, 1, inverse), s)
  {
    hide Radix4, Radix4By2, RunPasses, Passes, PowerOf4, Radix4Ok, By2Ok, AllOk;
    PowersAre(|s|);
    LengthOk(|s|, coef);
    Radix4IsPasses(s, coef, 1, inverse);
  }

  // Twice a power of four is split: the passes of half the length transform the sums into the first half and the
  // rotated differences into the second, and every point is doubled.
  lemma TwicePowerIsPasses(m: Rounding, inverse: bool, s: seq<Complex>, coef: seq<Complex>, o: nat)
    requires TableOk(|s|, coef) && |s| % 2 == 0 && PowerOf4(|s| / 2) && 16 <= |s| / 2 <= 1024 && o < |s|
    ensures AllOk(Passes(|s| / 2, coef, 2, inverse), |s| / 2)
    ensures var n2 := |s| / 2;
            var z := RunPasses(Passes(n2, coef, 2, inverse), Half(m, inverse, s, coef, o >= n2))[o % n2];
            Transformed(m, inverse, s, coef)[o] == Wrapped(Plus(z, z))
  {
    hide Radix4, Radix4By2, Combine, RunPasses, Passes, PowerOf4, Radix4Ok, By2Ok, AllOk, PairSum, PairDifference, Wrap,
         TableOk, CombineAt, DoubleAll, Half;
    HalvesFit(s, coef);
    var n2, combined := |s| / 2, Combine(m, inverse, s, coef);
    CombinedHalves(m, inverse, s, coef);
    var first, second := combined[..n2], combined[n2..];
    Radix4IsPasses(first, coef, 2, inverse);
    Radix4IsPasses(second, coef, 2, inverse);
    var x, y := Radix4(first, coef, 2, inverse), Radix4(second, coef, 2, inverse);
    By2Is(m, inverse, s, coef);
    DoubledAt(x, y, o);
    RemainderOf(o, n2);
    assert |x| == |first| == n2;
  }

  lemma RemainderOf(o: nat, n: nat)
    requires o < 2 * n
    ensures o % n == if o < n then o else o - n
  {
    if o >= n { assert o == 1 * n + (o - n); }
  }

  lemma HalvesFit(s: seq<Complex>, coef: seq<Complex>)
    requires TableOk(|s|, coef) && |s| % 2 == 0 && PowerOf4(|s| / 2) && 16 <= |s| / 2 <= 1024
    ensures IsBy2Length(|s|) && By2Ok(|s|, coef) && Radix4Ok(|s| / 2, coef, 2) && |s| / 2 <= |coef|
  {
    hide PowerOf4;
    PowersAre(|s| / 2);
    LengthOk(|s|, coef);
  }

  lemma CombinedHalves(m: Rounding, inverse: bool, s: seq<Complex>, coef: seq<Complex>)
    requires |s| % 2 == 0 && |s| / 2 <= |coef|
    ensures var n2, combined := |s| / 2, Combine(m, inverse, s, coef);
            combined[..n2] == Half(m, inverse, s, coef, false) && combined[n2..] == Half(m, inverse, s, coef, true)
  {
    hide PairSum, PairDifference;
  }

  lemma By2Is(m: Rounding, inverse: bool, s: seq<Complex>, coef: seq<Complex>)
    requires TableOk(|s|, coef) && IsBy2Length(|s|) && By2Ok(|s|, coef)
    ensures var n2, combined := |s| / 2, Combine(m, inverse, s, coef);
            Transformed(m, inverse, s, coef) ==
            DoubleAll(Radix4(combined[..n2], coef, 2, inverse) + Radix4(combined[n2..], coef, 2, inverse))
  {
    hide Radix4, Combine, DoubleAll, PowerOf4;
  }

  lemma DoubledAt(x: seq<Complex>, y: seq<Complex>, o: nat)
    requires o < |x| + |y|
    ensures var z := if o < |x| then x[o] else y[o - |x|];
            DoubleAll(x + y)[o] == Wrapped(Plus(z, z))
  {
    hide Double, Wrap;
    DoubleIs((x + y)[o].re);
    DoubleIs((x + y)[o].im);
  }

  // Any other length is left alone.
  lemma OtherLengthsStay(m: Rounding, inverse: bool, s: seq<Complex>, coef: seq<Complex>)
    requires TableOk(|s|, coef)
    requires PowerOf4(|s|) ==> |s| < 16 || |s| > 4096
    requires |s| % 2 == 0 && PowerOf4(|s| / 2) ==> |s| / 2 < 16 || |s| / 2 > 1024
    ensures Transformed(m, inverse, s, coef) == s
  {
    hide Radix4, Radix4By2, Radix4Ok, By2Ok;
    PowersOf4();
  }
}
