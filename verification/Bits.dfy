/** Byte strings as bit strings, least significant bit of each byte first. */
module Bits {
  // The n lowest bits, lowest first.
  function LowBits(b: bv8, n: nat): (bits: seq<bool>)
    ensures |bits| == n
    decreases n
  {
    if n == 0 then [] else [b & 1 == 1] + LowBits(b >> 1, n - 1)
  }

  function ByteBits(b: bv8): (bits: seq<bool>)
    ensures |bits| == 8
  {
    LowBits(b, 8)
  }

  function BitsOf(message: seq<bv8>): (bits: seq<bool>)
    ensures |bits| == 8 * |message|
  {
    if message == [] then [] else ByteBits(message[0]) + BitsOf(message[1..])
  }

  lemma BitsOfAppend(a: seq<bv8>, b: seq<bv8>)
    ensures BitsOf(a + b) == BitsOf(a) + BitsOf(b)
  {
    if a == [] {
      assert a + b == b;
    } else {
      assert (a + b)[1..] == a[1..] + b;
      BitsOfAppend(a[1..], b);
    }
  }

  // Where two bit strings of one length differ.
  function Difference(xs: seq<bool>, ys: seq<bool>): (ds: seq<bool>)
    requires |xs| == |ys|
    ensures |ds| == |xs|
    ensures forall i :: 0 <= i < |xs| ==> ds[i] == (xs[i] != ys[i])
  {
    if xs == [] then [] else [xs[0] != ys[0]] + Difference(xs[1..], ys[1..])
  }

  function Count(bits: seq<bool>): nat {
    if bits == [] then 0 else (if bits[0] then 1 else 0) + Count(bits[1..])
  }

  predicate AllFalse(bits: seq<bool>) {
    forall i :: 0 <= i < |bits| ==> !bits[i]
  }

  // The set bits, if any, lie in `width` consecutive positions.
  ghost predicate Confined(bits: seq<bool>, width: nat) {
    exists low: nat :: ConfinedFrom(bits, low, width)
  }

  predicate ConfinedFrom(bits: seq<bool>, low: nat, width: nat) {
    forall i :: 0 <= i < |bits| && bits[i] ==> low <= i < low + width
  }

  predicate Fits(b: bv8, n: nat)
    decreases n
  {
    if n == 0 then b == 0 else Fits(b >> 1, n - 1)
  }

  lemma {:induction false} SameLowBits(a: bv8, b: bv8, n: nat)
    requires Fits(a, n) && Fits(b, n) && LowBits(a, n) == LowBits(b, n)
    ensures a == b
  {
    if n != 0 {
      var x, y := LowBits(a, n), LowBits(b, n);
      assert x[0] == y[0] && x[1..] == y[1..];
      SameLowBits(a >> 1, b >> 1, n - 1);
      SameHalves(a, b);
    }
  }

  lemma SameHalves(a: bv8, b: bv8)
    requires a & 1 == 1 <==> b & 1 == 1
    requires a >> 1 == b >> 1
    ensures a == b
  {}

  lemma ByteFits(b: bv8)
    ensures Fits(b, 8)
  {}

  // Two different byte strings of one length differ in some bit.
  lemma {:induction false} DifferentBits(a: seq<bv8>, b: seq<bv8>)
    requires |a| == |b| && a != b
    ensures BitsOf(a) != BitsOf(b)
  {
    var x, y := BitsOf(a), BitsOf(b);
    if x == y {
      assert x[..8] == ByteBits(a[0]) && y[..8] == ByteBits(b[0]);
      assert x[8..] == BitsOf(a[1..]) && y[8..] == BitsOf(b[1..]);
      ByteFits(a[0]);
      ByteFits(b[0]);
      SameLowBits(a[0], b[0], 8);
      DifferentBits(a[1..], b[1..]);
    }
  }
}
