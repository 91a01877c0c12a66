/** Division of bit strings by a polynomial over GF(2), one bit at a time.

    A register of |poly| bits holds the remainder, its lowest bit first, as the reflected shift
    registers of the sources do: `poly` lists the coefficients below the leading one from the highest
    power down, so its last entry is the constant term. */
module Division {
  import opened Bits

  function Zeros(n: nat): (r: seq<bool>)
    ensures |r| == n && AllFalse(r)
  {
    seq(n, i => false)
  }

  // The register after multiplying by x and reducing.
  function Shift(poly: seq<bool>, r: seq<bool>): (s: seq<bool>)
    requires |r| == |poly| > 0
    ensures |s| == |poly|
  {
    var moved := r[1..] + [false];
    if r[0] then Difference(moved, poly) else moved
  }

  function Feed(poly: seq<bool>, r: seq<bool>, bit: bool): (s: seq<bool>)
    requires |r| == |poly| > 0
    ensures |s| == |poly|
  {
    Shift(poly, [r[0] != bit] + r[1..])
  }

  // The register after the bits of a message, first bit first.
  function FeedAll(poly: seq<bool>, r: seq<bool>, bits: seq<bool>): (s: seq<bool>)
    requires |r| == |poly| > 0
    ensures |s| == |poly|
    decreases |bits|
  {
    if bits == [] then r else FeedAll(poly, Feed(poly, r, bits[0]), bits[1..])
  }

  function Shifts(poly: seq<bool>, r: seq<bool>, n: nat): (s: seq<bool>)
    requires |r| == |poly| > 0
    ensures |s| == |poly|
    decreases n
  {
    if n == 0 then r else Shifts(poly, Shift(poly, r), n - 1)
  }

  lemma {:induction false} FeedAppend(poly: seq<bool>, r: seq<bool>, xs: seq<bool>, ys: seq<bool>)
    requires |r| == |poly| > 0
    ensures FeedAll(poly, r, xs + ys) == FeedAll(poly, FeedAll(poly, r, xs), ys)
    decreases |xs|
  {
    if xs == [] {
      assert xs + ys == ys;
    } else {
      assert (xs + ys)[1..] == xs[1..] + ys;
      FeedAppend(poly, Feed(poly, r, xs[0]), xs[1..], ys);
    }
  }

  // ----- Linearity ------------------------------------------------------------------------------

  lemma ShiftLinear(poly: seq<bool>, a: seq<bool>, b: seq<bool>)
    requires |a| == |b| == |poly| > 0
    ensures Shift(poly, Difference(a, b)) == Difference(Shift(poly, a), Shift(poly, b))
  {
    hide Difference;
    var l, r := Shift(poly, Difference(a, b)), Difference(Shift(poly, a), Shift(poly, b));
    assert forall i :: 0 <= i < |poly| ==> l[i] == r[i];
  }

  lemma FeedLinear(poly: seq<bool>, a: seq<bool>, b: seq<bool>, x: bool, y: bool)
    requires |a| == |b| == |poly| > 0
    ensures Feed(poly, Difference(a, b), x != y) == Difference(Feed(poly, a, x), Feed(poly, b, y))
  {
    var a', b' := [a[0] != x] + a[1..], [b[0] != y] + b[1..];
    var d := Difference(a, b);
    assert [d[0] != (x != y)] + d[1..] == Difference(a', b');
    ShiftLinear(poly, a', b');
  }

  // Remainders of two messages differ by the remainder of their difference.
  lemma {:induction false} FeedAllLinear(poly: seq<bool>, a: seq<bool>, b: seq<bool>, xs: seq<bool>, ys: seq<bool>)
    requires |a| == |b| == |poly| > 0 && |xs| == |ys|
    ensures FeedAll(poly, Difference(a, b), Difference(xs, ys))
         == Difference(FeedAll(poly, a, xs), FeedAll(poly, b, ys))
    decreases |xs|
  {
    if xs != [] {
      FeedLinear(poly, a, b, xs[0], ys[0]);
      FeedAllLinear(poly, Feed(poly, a, xs[0]), Feed(poly, b, ys[0]), xs[1..], ys[1..]);
      assert Difference(xs, ys)[1..] == Difference(xs[1..], ys[1..]);
    }
  }

  lemma ShiftClear(poly: seq<bool>, bits: seq<bool>, n: nat)
    requires |poly| == 1 + |bits| + n
    ensures Shift(poly, [false] + bits + Zeros(n)) == bits + Zeros(n + 1)
  {
    assert ([false] + bits + Zeros(n))[1..] == bits + Zeros(n);
  }

  // Up to a register's width of message bits may be put into the register at once and then shifted.
  lemma {:induction false} FeedAtOnce(poly: seq<bool>, r: seq<bool>, bits: seq<bool>)
    requires |r| == |poly| > 0 && |bits| <= |poly|
    ensures FeedAll(poly, r, bits) == Shifts(poly, Difference(r, bits + Zeros(|poly| - |bits|)), |bits|)
    decreases |bits|
  {
    hide Difference, Shift;
    var n := |poly|;
    var whole := Difference(r, bits + Zeros(n - |bits|));
    if bits == [] {
      assert whole == r;
    } else {
      var first := [r[0] != bits[0]] + r[1..];
      var rest := [false] + bits[1..] + Zeros(n - |bits|);
      assert whole == Difference(first, rest);
      ShiftLinear(poly, first, rest);
      ShiftClear(poly, bits[1..], n - |bits|);
      FeedAtOnce(poly, Feed(poly, r, bits[0]), bits[1..]);
    }
  }

  // ----- Errors with an odd number of bits ----------------------------------------------------------

  predicate Odd(bits: seq<bool>) { Count(bits) % 2 == 1 }

  lemma {:induction false} CountAppend(a: seq<bool>, b: seq<bool>)
    ensures Count(a + b) == Count(a) + Count(b)
  {
    if a == [] {
      assert a + b == b;
    } else {
      assert (a + b)[1..] == a[1..] + b;
      CountAppend(a[1..], b);
    }
  }

  lemma {:induction false} OddDifference(a: seq<bool>, b: seq<bool>)
    requires |a| == |b|
    ensures Odd(Difference(a, b)) == (Odd(a) != Odd(b))
  {
    if a != [] {
      OddDifference(a[1..], b[1..]);
      assert Difference(a, b)[1..] == Difference(a[1..], b[1..]);
    }
  }

  lemma FeedOdd(poly: seq<bool>, r: seq<bool>, bit: bool)
    requires |r| == |poly| > 0 && Odd(poly)
    ensures Odd(Feed(poly, r, bit)) == (Odd(r) != bit)
  {
    var moved := r[1..] + [false];
    CountAppend(r[1..], [false]);
    assert ([r[0] != bit] + r[1..])[1..] == r[1..];
    OddDifference(moved, poly);
  }

  lemma {:induction false} FeedAllOdd(poly: seq<bool>, r: seq<bool>, bits: seq<bool>)
    requires |r| == |poly| > 0 && Odd(poly)
    ensures Odd(FeedAll(poly, r, bits)) == (Odd(r) != Odd(bits))
    decreases |bits|
  {
    if bits != [] {
      FeedOdd(poly, r, bits[0]);
      FeedAllOdd(poly, Feed(poly, r, bits[0]), bits[1..]);
    }
  }

  lemma {:induction false} CountOfZeros(bits: seq<bool>)
    requires AllFalse(bits)
    ensures Count(bits) == 0
  {
    if bits != [] {
      assert AllFalse(bits[1..]);
      CountOfZeros(bits[1..]);
    }
  }

  // ----- Bursts -----------------------------------------------------------------------------------

  predicate SetAbove(r: seq<bool>, n: nat) {
    exists i :: n <= i < |r| && r[i]
  }

  lemma ShiftKeepsNonzero(poly: seq<bool>, r: seq<bool>)
    requires |r| == |poly| > 0 && poly[|poly| - 1]
    ensures AllFalse(Shift(poly, r)) <==> AllFalse(r)
  {
    var s := Shift(poly, r);
    if r[0] {
      assert s[|poly| - 1];
    } else if AllFalse(s) {
      forall i | 0 < i < |r| ensures !r[i] {
        assert s[i - 1] == r[i];
      }
    }
  }

  // A register with a bit at position n or above cannot be emptied by n further bits, whatever they are.
  lemma {:induction false} NotEmptied(poly: seq<bool>, r: seq<bool>, bits: seq<bool>)
    requires |r| == |poly| > 0 && poly[|poly| - 1] && |bits| < |poly|
    requires SetAbove(r, |bits|)
    ensures !AllFalse(FeedAll(poly, r, bits))
    decreases |bits|
  {
    if bits != [] {
      var i :| |bits| <= i < |r| && r[i];
      var s := Feed(poly, r, bits[0]);
      var moved := ([r[0] != bits[0]] + r[1..])[1..] + [false];
      assert moved[i - 1] == r[i];
      assert s[if r[0] != bits[0] then |poly| - 1 else i - 1];
      NotEmptied(poly, s, bits[1..]);
    }
  }

  lemma {:induction false} FeedZeros(poly: seq<bool>, r: seq<bool>, bits: seq<bool>)
    requires |r| == |poly| > 0 && poly[|poly| - 1] && AllFalse(bits)
    ensures AllFalse(FeedAll(poly, r, bits)) <==> AllFalse(r)
    decreases |bits|
  {
    if bits != [] {
      assert [r[0] != false] + r[1..] == r;
      ShiftKeepsNonzero(poly, r);
      assert AllFalse(bits[1..]);
      FeedZeros(poly, Feed(poly, r, false), bits[1..]);
    }
  }

  // A nonzero pattern confined to a register's width of consecutive bits leaves a remainder.
  lemma {:induction false} BurstRemainder(poly: seq<bool>, r: seq<bool>, bits: seq<bool>, low: nat)
    requires |r| == |poly| > 0 && poly[|poly| - 1] && AllFalse(r)
    requires !AllFalse(bits) && ConfinedFrom(bits, low, |poly|)
    ensures !AllFalse(FeedAll(poly, r, bits))
    decreases |bits|
  {
    var n := |poly|;
    if !bits[0] {
      FeedZeros(poly, r, [false]);
      assert FeedAll(poly, r, [false]) == Feed(poly, r, false);
      var i :| 0 <= i < |bits| && bits[i];
      assert bits[1..][i - 1];
      BurstRemainder(poly, Feed(poly, r, false), bits[1..], if low == 0 then 0 else low - 1);
    } else {
      var width := if |bits| < n then |bits| else n;
      var head, tail := bits[1..width], bits[width..];
      assert bits[1..] == head + tail;
      var s := Feed(poly, r, true);
      assert s[n - 1];
      NotEmptied(poly, s, head);
      FeedAppend(poly, s, head, tail);
      FeedZeros(poly, FeedAll(poly, s, head), tail);
    }
  }
}
