/** The radix-4 butterflies of cmsis_overwrite/arm_cfft_radix4_q31.c on wrapping thirty-two-bit words. */
module Butterflies {
  // ----- Words ------------------------------------------------------------------------------------

  // A 32-bit two's complement word.
  function Wrap(x: int): int { (x + 0x8000_0000) % 0x1_0000_0000 - 0x8000_0000 }

  function Add(x: int, y: int): int { Wrap(x + y) }

  function Sub(x: int, y: int): int { Wrap(x - y) }

  // The arithmetic shift right rounds down.
  function Shr(x: int, n: nat): int { if n == 1 then x / 2 else if n == 2 then x / 4 else x / 16 }

  function Double(x: int): int { Wrap(2 * x) }

  // (int32_t) (((q63_t) x * y) >> 32)
  function High(x: int, y: int): int { x * y / 0x1_0000_0000 }

  // Two neighbouring words of the buffer.
  datatype Complex = Complex(re: int, im: int)

  function Swap(z: Complex): Complex { Complex(z.im, z.re) }

  // ----- One butterfly ------------------------------------------------------------------------------

  datatype Stage = First | Middle | Last

  // The four points of a butterfly in the order of their places.
  datatype Quad = Quad(p0: Complex, p1: Complex, p2: Complex, p3: Complex)

  // Twiddle factors Wn, W2n and W3n: cosine and sine.
  datatype Twiddles = Twiddles(w1: Complex, w2: Complex, w3: Complex)

  function Input(stage: Stage, x: int): int { if stage.First? then Shr(x, 4) else x }

  function Sum(stage: Stage, x: int): int { if stage.Middle? then Shr(x, 2) else x }

  function Product(stage: Stage, x: int): int { if stage.First? then Double(x) else Shr(x, 1) }

  // r * (co - j si) for the forward and r * (co + j si) for the inverse transform.
  function Rotate(stage: Stage, inverse: bool, r: int, s: int, w: Complex): Complex {
    if inverse then
      Complex(Product(stage, Sub(High(r, w.re), High(s, w.im))), Product(stage, Add(High(s, w.re), High(r, w.im))))
    else
      Complex(Product(stage, Add(High(r, w.re), High(s, w.im))), Product(stage, Sub(High(s, w.re), High(r, w.im))))
  }

  // First and middle stages. The second place receives xc', the third xb'.
  function Twiddled(stage: Stage, inverse: bool, q: Quad, w: Twiddles): Quad {
    var xa, ya, xb, yb := Input(stage, q.p0.re), Input(stage, q.p0.im), Input(stage, q.p1.re), Input(stage, q.p1.im);
    var xc, yc, xd, yd := Input(stage, q.p2.re), Input(stage, q.p2.im), Input(stage, q.p3.re), Input(stage, q.p3.im);
    var sumX, sumY, difX, difY := Add(xa, xc), Add(ya, yc), Sub(xa, xc), Sub(ya, yc);
    var crossX, crossY, dX, dY := Add(xb, xd), Add(yb, yd), Sub(xb, xd), Sub(yb, yd);
    var p0 := Complex(Sum(stage, Add(sumX, crossX)), Sum(stage, Add(sumY, crossY)));
    var p1 := Rotate(stage, inverse, Sub(sumX, crossX), Sub(sumY, crossY), w.w2);
    var plus, minus := (Add(difX, dY), Sub(difY, dX)), (Sub(difX, dY), Add(difY, dX));
    var (b, d) := if inverse then (minus, plus) else (plus, minus);
    Quad(p0, p1, Rotate(stage, inverse, b.0, b.1, w.w1), Rotate(stage, inverse, d.0, d.1, w.w3))
  }

  // The last stage has no twiddle factors and does not scale.
  function Untwiddled(inverse: bool, q: Quad): Quad {
    var xa, ya, xb, yb := q.p0.re, q.p0.im, q.p1.re, q.p1.im;
    var xc, yc, xd, yd := q.p2.re, q.p2.im, q.p3.re, q.p3.im;
    var a := Complex(Add(Add(Add(xa, xb), xc), xd), Add(Add(Add(ya, yb), yc), yd));
    var c := Complex(Sub(Add(Sub(xa, xb), xc), xd), Sub(Add(Sub(ya, yb), yc), yd));
    var plus := Complex(Sub(Sub(Add(xa, yb), xc), yd), Add(Sub(Sub(ya, xb), yc), xd));
    var minus := Complex(Add(Sub(Sub(xa, yb), xc), yd), Sub(Sub(Add(ya, xb), yc), xd));
    if inverse then Quad(a, c, minus, plus) else Quad(a, c, plus, minus)
  }

  function Butterfly(stage: Stage, inverse: bool, q: Quad, w: Twiddles): Quad {
    if stage.Last? then Untwiddled(inverse, q) else Twiddled(stage, inverse, q, w)
  }

  function SwapQuad(q: Quad): Quad { Quad(Swap(q.p0), Swap(q.p1), Swap(q.p2), Swap(q.p3)) }

  // The inverse butterfly is the forward one between exchanges of real and imaginary parts, bit for bit.
  lemma InverseButterfly(stage: Stage, q: Quad, w: Twiddles)
    ensures Butterfly(stage, true, q, w) == SwapQuad(Butterfly(stage, false, SwapQuad(q), w))
  {
    hide Add, Sub, Shr, Double, High;
  }

  // ----- In place -------------------------------------------------------------------------------------

  predicate Places(length: nat, i0: nat, i1: nat, i2: nat, i3: nat) {
    i0 < i1 < i2 < i3 < length
  }

  function Take(s: seq<Complex>, i0: nat, i1: nat, i2: nat, i3: nat): Quad
    requires Places(|s|, i0, i1, i2, i3)
  {
    Quad(s[i0], s[i1], s[i2], s[i3])
  }

  function Put(s: seq<Complex>, i0: nat, i1: nat, i2: nat, i3: nat, q: Quad): (after: seq<Complex>)
    requires Places(|s|, i0, i1, i2, i3)
    ensures |after| == |s|
    ensures after[i0] == q.p0 && after[i1] == q.p1 && after[i2] == q.p2 && after[i3] == q.p3
    ensures forall i :: 0 <= i < |s| && i !in {i0, i1, i2, i3} ==> after[i] == s[i]
  {
    s[i0 := q.p0][i1 := q.p1][i2 := q.p2][i3 := q.p3]
  }

  // The body of the first and middle stages. A place is overwritten while the other three still hold
  // their old values, and no value is read again after it was overwritten.
  method TwiddledInPlace(p: array<Complex>, i0: nat, i1: nat, i2: nat, i3: nat, stage: Stage, inverse: bool,
                         w: Twiddles)
    requires Places(p.Length, i0, i1, i2, i3) && !stage.Last?
    modifies p
    ensures p[..] == Put(old(p[..]), i0, i1, i2, i3, Twiddled(stage, inverse, Take(old(p[..]), i0, i1, i2, i3), w))
  {
    hide Add, Sub, High, Input, Sum, Product;
    var r1 := Add(Input(stage, p[i0].re), Input(stage, p[i2].re));
    var r2 := Sub(Input(stage, p[i0].re), Input(stage, p[i2].re));
    var t1 := Add(Input(stage, p[i1].re), Input(stage, p[i3].re));
    var s1 := Add(Input(stage, p[i0].im), Input(stage, p[i2].im));
    var s2 := Sub(Input(stage, p[i0].im), Input(stage, p[i2].im));
    p[i0] := p[i0].(re := Sum(stage, Add(r1, t1)));
    r1 := Sub(r1, t1);
    var t2 := Add(Input(stage, p[i1].im), Input(stage, p[i3].im));
    p[i0] := p[i0].(im := Sum(stage, Add(s1, t2)));
    s1 := Sub(s1, t2);
    t1 := Sub(Input(stage, p[i1].im), Input(stage, p[i3].im));
    t2 := Sub(Input(stage, p[i1].re), Input(stage, p[i3].re));
    p[i1] := Rotate(stage, inverse, r1, s1, w.w2);
    if inverse {
      r1, r2 := Sub(r2, t1), Add(r2, t1);
      s1, s2 := Add(s2, t2), Sub(s2, t2);
    } else {
      r1, r2 := Add(r2, t1), Sub(r2, t1);
      s1, s2 := Sub(s2, t2), Add(s2, t2);
    }
    p[i2] := Rotate(stage, inverse, r1, s1, w.w1);
    p[i3] := Rotate(stage, inverse, r2, s2, w.w3);
  }

  // The same with four pointers, each of which moves on as soon as its point is written, while the butterfly
  // still works on the others.
  method TwiddledWalking(p: array<Complex>, i0: nat, i1: nat, i2: nat, i3: nat, stride: nat,
                         stage: Stage, inverse: bool,
                         w: Twiddles)
    returns (si0: nat, si1: nat, si2: nat, si3: nat)
    requires Places(p.Length, i0, i1, i2, i3) && !stage.Last?
    modifies p
    ensures p[..] == Put(old(p[..]), i0, i1, i2, i3, Twiddled(stage, inverse, Take(old(p[..]), i0, i1, i2, i3), w))
    ensures si0 == i0 + stride && si1 == i1 + stride && si2 == i2 + stride && si3 == i3 + stride
  {
    hide Add, Sub, High, Input, Sum, Product;
    si0, si1, si2, si3 := i0, i1, i2, i3;
    var r1 := Add(Input(stage, p[si0].re), Input(stage, p[si2].re));
    var r2 := Sub(Input(stage, p[si0].re), Input(stage, p[si2].re));
    var t1 := Add(Input(stage, p[si1].re), Input(stage, p[si3].re));
    var s1 := Add(Input(stage, p[si0].im), Input(stage, p[si2].im));
    var s2 := Sub(Input(stage, p[si0].im), Input(stage, p[si2].im));
    p[si0] := p[si0].(re := Sum(stage, Add(r1, t1)));
    r1 := Sub(r1, t1);
    var t2 := Add(Input(stage, p[si1].im), Input(stage, p[si3].im));
    p[si0] := p[si0].(im := Sum(stage, Add(s1, t2)));
    si0 := si0 + stride;
    s1 := Sub(s1, t2);
    t1 := Sub(Input(stage, p[si1].im), Input(stage, p[si3].im));
    t2 := Sub(Input(stage, p[si1].re), Input(stage, p[si3].re));
    p[si1] := Rotate(stage, inverse, r1, s1, w.w2);
    si1 := si1 + stride;
    if inverse {
      r1, r2 := Sub(r2, t1), Add(r2, t1);
      s1, s2 := Add(s2, t2), Sub(s2, t2);
    } else {
      r1, r2 := Add(r2, t1), Sub(r2, t1);
      s1, s2 := Sub(s2, t2), Add(s2, t2);
    }
    p[si2] := Rotate(stage, inverse, r1, s1, w.w1);
    si2 := si2 + stride;
    p[si3] := Rotate(stage, inverse, r2, s2, w.w3);
    si3 := si3 + stride;
  }

  // The body of the last stage on four neighbouring points.
  method UntwiddledInPlace(p: array<Complex>, i: nat, inverse: bool)
    requires i + 4 <= p.Length
    modifies p
    ensures p[..] == Put(old(p[..]), i, i + 1, i + 2, i + 3,
                         Untwiddled(inverse, Take(old(p[..]), i, i + 1, i + 2, i + 3)))
  {
    hide Add, Sub;
    var xa, ya, xb, yb := p[i].re, p[i].im, p[i + 1].re, p[i + 1].im;
    var xc, yc, xd, yd := p[i + 2].re, p[i + 2].im, p[i + 3].re, p[i + 3].im;
    p[i] := Complex(Add(Add(Add(xa, xb), xc), xd), Add(Add(Add(ya, yb), yc), yd));
    p[i + 1] := Complex(Sub(Add(Sub(xa, xb), xc), xd), Sub(Add(Sub(ya, yb), yc), yd));
    if inverse {
      p[i + 2] := Complex(Add(Sub(Sub(xa, yb), xc), yd), Sub(Sub(Add(ya, xb), yc), xd));
      p[i + 3] := Complex(Sub(Sub(Add(xa, yb), xc), yd), Add(Sub(Sub(ya, xb), yc), xd));
    } else {
      p[i + 2] := Complex(Sub(Sub(Add(xa, yb), xc), yd), Add(Sub(Sub(ya, xb), yc), xd));
      p[i + 3] := Complex(Add(Sub(Sub(xa, yb), xc), yd), Sub(Sub(Add(ya, xb), yc), xd));
    }
  }
}
