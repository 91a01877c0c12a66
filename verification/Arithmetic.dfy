/** Integer arithmetic with exact results: bitwise long division, the baud value built on it, and the
    rounded square root. */
module Arithmetic {
  import opened Quotients

  const WORD32 := 0x1_0000_0000
  const WORD64 := 0x1_0000_0000_0000_0000

  function Pow2(k: nat): (p: nat)
    ensures p > 0
  {
    if k == 0 then 1 else 2 * Pow2(k - 1)
  }

  lemma Pow2Is()
    ensures Pow2(15) == 0x8000 && Pow2(16) == 0x1_0000 && Pow2(32) == WORD32 && Pow2(64) == WORD64
  {
    assert Pow2(4) == 16;
    assert Pow2(8) == 256;
    assert Pow2(12) == 4096;
    assert Pow2(16) == 65536;
    assert Pow2(20) == 0x10_0000;
    assert Pow2(24) == 0x100_0000;
    assert Pow2(28) == 0x1000_0000;
    assert Pow2(32) == 0x1_0000_0000;
    assert Pow2(36) == 0x10_0000_0000;
    assert Pow2(40) == 0x100_0000_0000;
    assert Pow2(44) == 0x1000_0000_0000;
    assert Pow2(48) == 0x1_0000_0000_0000;
    assert Pow2(52) == 0x10_0000_0000_0000;
    assert Pow2(56) == 0x100_0000_0000_0000;
    assert Pow2(60) == 0x1000_0000_0000_0000;
  }

  // ----- Long division ----------------------------------------------------------------------------------

  function Quotient(n: nat, p: nat): (q: nat)
    requires p > 0
    ensures q * p <= n < q * p + p
  {
    assert n == (n / p) * p + n % p;
    AtLeastOne(n / p, p);
    n / p
  }

  // The leading bits of n, down to bit i.
  function Prefix(n: nat, i: nat): nat { Quotient(n, Pow2(i)) }

  lemma PrefixStep(n: nat, i: nat)
    ensures Prefix(n, i) == 2 * Prefix(n, i + 1) + Prefix(n, i) % 2
  {
    Doubles(i, 0);
    hide Pow2, Quotient;
    HalfOf(n, Pow2(i), Prefix(n, i), Prefix(n, i + 1));
  }

  lemma HalfOf(n: nat, p: nat, a: nat, b: nat)
    requires p > 0 && a * p <= n < a * p + p && b * (2 * p) <= n < b * (2 * p) + 2 * p
    ensures a == 2 * b + a % 2
  {
    assert b * (2 * p) == (2 * b) * p;
    Ordered(2 * b, a + 1, p);
    Ordered(a, 2 * b + 2, p);
  }

  lemma Ordered(x: nat, y: nat, p: nat)
    requires p > 0 && x * p < y * p
    ensures x < y
  {
    if y <= x {
      Product(y, x, p);
    }
  }

  lemma Product(y: nat, x: nat, p: nat)
    requires y <= x
    ensures y * p <= x * p
  {}

  lemma PrefixEnds(n: nat)
    requires n < WORD64
    ensures Prefix(n, 64) == 0 && Prefix(n, 0) == n
  {
    Pow2Is();
    NoShift();
    hide Pow2;
  }

  // Sixty-four steps of shift, compare and subtract, the intermediate words kept to 64 bits. The quotient
  // is exact for every divisor; dividing by zero gives all ones.
  method LongDivision(n: nat, d: nat) returns (q: nat)
    requires n < WORD64 && d < WORD64
    ensures d > 0 ==> q == n / d
    ensures d == 0 ==> q == WORD64 - 1
  {
    hide Pow2, Prefix;
    PrefixEnds(n);
    Pow2Is();
    NoShift();
    q := 0;
    var r: nat, i := 0, 63;
    ghost var quotient: nat := 0;
    while i >= 0
      invariant -1 <= i <= 63 && 0 <= i + 1 && q == quotient * Pow2(i + 1)
      invariant quotient * d + r == Prefix(n, i + 1) < Pow2(63 - i) && quotient < Pow2(63 - i)
      invariant d > 0 ==> r < d
      invariant d == 0 ==> quotient == Pow2(63 - i) - 1
      decreases i
    {
      var bitShift := Pow2(i);
      PrefixStep(n, i);
      Doubles(i, 63 - i);
      DivisionStep(quotient, d, r, Prefix(n, i + 1), Prefix(n, i), Pow2(63 - i));
      ghost var before, bit := r, Prefix(n, i) % 2;
      r := r * 2 % WORD64;
      NoOverflow(before, Prefix(n, i + 1), 63 - i);
      if BitOf(n, bitShift) {
        r := r + 1;
      }
      BitIs(n, i, bitShift);
      assert r == 2 * before + bit;
      quotient := 2 * quotient;
      TwiceShift(quotient / 2, Pow2(i));
      if r >= d {
        r := r - d;
        q := q + bitShift;
        quotient := quotient + 1;
        OneMore(quotient - 1, d, Pow2(i));
      }
      i := i - 1;
    }
    NoShift();
    if d > 0 {
      QuotientUnique(n, d, quotient, r);
    }
  }

  predicate BitOf(n: nat, bitShift: nat)
    requires bitShift > 0
  {
    Quotient(n, bitShift) % 2 == 1
  }

  lemma BitIs(n: nat, i: nat, bitShift: nat)
    requires bitShift == Pow2(i)
    ensures BitOf(n, bitShift) <==> Prefix(n, i) % 2 == 1
  {}

  lemma Doubles(i: nat, k: nat)
    ensures Pow2(i + 1) == 2 * Pow2(i) && Pow2(k + 1) == 2 * Pow2(k)
  {}

  lemma NoShift()
    ensures Pow2(0) == 1
  {}

  lemma DivisionStep(quotient: nat, d: nat, r: nat, p: nat, next: nat, bound: nat)
    requires quotient * d + r == p < bound && next == 2 * p + next % 2
    ensures 2 * quotient * d + (2 * r + next % 2) == next < 2 * bound && r <= p
  {
    assert 2 * quotient * d == 2 * (quotient * d);
    assert quotient * d >= 0;
  }

  lemma NoOverflow(r: nat, p: nat, k: nat)
    requires r <= p < Pow2(k) && k <= 63
    ensures r * 2 % WORD64 == 2 * r && 2 * r + 1 < WORD64
  {
    Below63(k);
  }

  lemma {:induction false} Below63(k: nat)
    requires k <= 63
    ensures 2 * Pow2(k) <= WORD64
    decreases 63 - k
  {
    if k == 63 {
      Pow2Is();
      assert Pow2(64) == 2 * Pow2(63);
    } else {
      Below63(k + 1);
    }
  }

  lemma TwiceShift(quotient: nat, shift: nat)
    ensures quotient * (2 * shift) == 2 * quotient * shift
  {}

  lemma OneMore(quotient: nat, d: nat, shift: nat)
    ensures (quotient + 1) * d == quotient * d + d && (quotient + 1) * shift == quotient * shift + shift
  {}

  // ----- The arithmetic baud value ------------------------------------------------------------------------

  const SCALE := 65536

  // Rate times samples, as 32 bits hold it.
  function WrappedProduct(baudrate: nat, sampleNum: nat): (product: nat)
    ensures product < WORD32 && product <= baudrate * sampleNum
  {
    baudrate * sampleNum % WORD32
  }

  // The range check multiplies in 32 bits.
  predicate InRange(baudrate: nat, sampleNum: nat, clock: nat) { WrappedProduct(baudrate, sampleNum) <= clock }

  // It gives the right answer if and only if the product fits, or what is left of it still exceeds the clock.
  lemma RangeCheckExactly(baudrate: nat, sampleNum: nat, clock: nat)
    requires clock < WORD32
    ensures (InRange(baudrate, sampleNum, clock) <==> baudrate * sampleNum <= clock) <==>
            baudrate * sampleNum < WORD32 || WrappedProduct(baudrate, sampleNum) > clock
  {
    var product := baudrate * sampleNum;
    assert product < WORD32 ==> product % WORD32 == product;
  }

  // A product that passes by wrapping around, here whatever the clock.
  lemma RangeCheckWraps(clock: nat)
    ensures InRange(0x1000_0000, 16, clock) && (clock < WORD32 ==> 0x1000_0000 * 16 > clock)
  {}

  function BaudOf(ratio: nat): nat
    requires ratio <= WORD32
  {
    SCALE * (WORD32 - ratio) / WORD32
  }

  // _sercom_get_async_baud_val in arithmetic mode; every word is cut to its width. Shifting left by 32 in 64
  // bits keeps the wrapped product alone, so that is what the value is for.
  method AsyncBaud(baudrate: nat, clock: nat, sampleNum: nat) returns (ok: bool, baudval: nat)
    requires baudrate < WORD32 && clock < WORD32 && sampleNum in {3, 8, 16}
    ensures ok <==> InRange(baudrate, sampleNum, clock)
    ensures var product := WrappedProduct(baudrate, sampleNum);
            && (ok && clock > 0 ==>
                 product * WORD32 / clock <= WORD32 && baudval == BaudOf(product * WORD32 / clock) % SCALE)
            && (!ok || clock == 0 ==> baudval == 0)
  {
    hide BaudOf, WrappedProduct;
    Wraps(baudrate, sampleNum);
    if baudrate * sampleNum % WORD32 > clock {
      return false, 0;
    }
    var product := sampleNum * baudrate;
    var temp1 := product * WORD32 % WORD64;
    var ratio := LongDivision(temp1, clock);
    var scale := (WORD32 - ratio) % WORD64;
    var baudCalculated := SCALE * scale % WORD64 / WORD32;
    if clock > 0 {
      RatioInRange(WrappedProduct(baudrate, sampleNum), clock);
      ScaleIsBaud(ratio, scale);
    } else {
      AllOnes();
    }
    return true, baudCalculated % SCALE;
  }

  lemma ScaleIsBaud(ratio: nat, scale: nat)
    requires ratio <= WORD32 && scale == (WORD32 - ratio) % WORD64
    ensures SCALE * scale % WORD64 / WORD32 == BaudOf(ratio)
  {
    SmallModulo(WORD32 - ratio, WORD64);
    SmallModulo(SCALE * scale, WORD64);
  }

  // The ratio for clock zero.
  lemma AllOnes()
    ensures SCALE * ((WORD32 - (WORD64 - 1)) % WORD64) % WORD64 / WORD32 % SCALE == 0
  {}

  lemma Wraps(baudrate: nat, sampleNum: nat)
    ensures var product := sampleNum * baudrate;
            && product == baudrate * sampleNum && product % WORD32 == WrappedProduct(baudrate, sampleNum)
            && product * WORD32 % WORD64 == WrappedProduct(baudrate, sampleNum) * WORD32
  {
    var product := baudrate * sampleNum;
    assert product == product / WORD32 * WORD32 + product % WORD32;
    QuotientUnique(product * WORD32, WORD64, product / WORD32, product % WORD32 * WORD32);
  }

  lemma SmallModulo(x: nat, n: nat)
    requires x < n
    ensures x % n == x
  {}

  lemma RatioInRange(product: nat, clock: nat)
    requires product <= clock && 0 < clock
    ensures product * WORD32 / clock <= WORD32
    ensures product > 0 && clock < WORD32 ==> product * WORD32 / clock >= 1
  {
    var n := product * WORD32;
    var q := Quotient(n, clock);
    Exceeds(q, WORD32, clock);
  }

  lemma Exceeds(x: nat, y: nat, p: nat)
    ensures x > y ==> x * p >= y * p + p
  {
    if x > y {
      Product(y + 1, x, p);
    }
  }

  // BAUD fits its sixteen bits exactly for a baud rate above zero.
  lemma {:induction false} BaudFits(product: nat, clock: nat)
    requires product <= clock && 0 < clock < WORD32
    ensures product * WORD32 / clock <= WORD32
    ensures BaudOf(product * WORD32 / clock) < SCALE <==> product > 0
  {
    RatioInRange(product, clock);
    if product == 0 {
      QuotientUnique(0, clock, 0, 0);
    }
  }

  // (65536 - BAUD) / 65536 exceeds product / clock by less than 2^-16 and falls short by less than 2^-32;
  // both sides are multiplied by 2^32 * clock.
  lemma {:induction false} BaudAccurate(product: nat, clock: nat)
    requires 0 < product <= clock < WORD32
    ensures product * WORD32 / clock <= WORD32
    ensures var error := (SCALE - BaudOf(product * WORD32 / clock)) * SCALE * clock - product * WORD32;
            0 - clock < error < SCALE * clock
  {
    RatioInRange(product, clock);
    var n := product * WORD32;
    var ratio := Quotient(n, clock);
    var baud := BaudOf(ratio);
    var s := (WORD32 - ratio) - SCALE * baud;
    assert 0 <= s < SCALE;
    assert (SCALE - baud) * SCALE == ratio + s;
    assert (SCALE - baud) * SCALE * clock == ratio * clock + s * clock;
    Product(s, SCALE - 1, clock);
    assert (SCALE - 1) * clock == SCALE * clock - clock;
  }

  // ----- The square root ------------------------------------------------------------------------------------

  function Square(n: nat): nat { n * n }

  // The result register while h is the bit under trial.
  function RegisterOf(root: nat, h: nat): nat { root * (2 * h) }

  // sqrt_integer_precise. With h the bit under trial and R the root found so far, the scan bit is h * h, the
  // result register R * 2h and the remainder the argument less R * R.
  method SqrtIntegerPrecise(argument: nat) returns (root: nat)
    requires argument < WORD32
    ensures argument == 0 ==> root == 0
    ensures argument > 0 ==> root * (root - 1) < argument <= root * (root + 1)
    ensures root < WORD32
  {
    hide Pow2, Square, RegisterOf;
    SqrtStart(argument);
    var x: nat, xr: nat, q2: nat := argument, 0, 0x4000_0000;
    ghost var found: nat, k: nat, h: nat := 0, 15, 0x8000;
    while true
      invariant h == Pow2(k) && q2 == Square(h) && k <= 15 && h <= 0x8000
      invariant xr == RegisterOf(found, h) && x + Square(found) == argument
      invariant argument < Square(found + 2 * h)
      invariant k == 15 ==> found == 0
      decreases k
    {
      RegisterFits(found, h, argument, k);
      Trial(found, h, argument, x);
      var f := xr + q2 <= x;
      if f {
        x := x - (xr + q2);
      }
      xr := xr / 2;
      if f {
        xr := xr + q2;
        found := found + h;
      }
      q2 := q2 / 4;
      NextBit(found, h, k);
      if q2 == 0 {
        break;
      }
      k := k - 1;
      h := h / 2;
    }
    Rounded(found, argument, x, xr);
    root := if xr < x then xr + 1 else xr;
  }

  lemma SqrtStart(argument: nat)
    requires argument < WORD32
    ensures Pow2(15) == 0x8000 && Square(0x8000) == 0x4000_0000 && RegisterOf(0, 0x8000) == 0 && Square(0) == 0
    ensures argument < Square(0 + 2 * 0x8000)
  {
    Pow2Is();
  }

  // The comparison asks whether adding the bit keeps the square below the argument, the subtraction then
  // leaves the remainder of the new root, and the halved register, with the scan bit added, is its register.
  lemma Trial(found: nat, h: nat, argument: nat, x: nat)
    requires x + Square(found) == argument && argument < Square(found + 2 * h)
    ensures Square(found + h) == Square(found) + (RegisterOf(found, h) + Square(h))
    ensures RegisterOf(found, h) + Square(h) <= x <==> Square(found + h) <= argument
    ensures RegisterOf(found, h) / 2 == found * h && found * h + Square(h) == (found + h) * h
    ensures argument < Square(found + h + h)
  {
    assert RegisterOf(found, h) == 2 * (found * h);
    assert found + h + h == found + 2 * h;
  }

  // The sum that is compared fits 32 bits.
  lemma RegisterFits(found: nat, h: nat, argument: nat, k: nat)
    requires Square(found) <= argument < WORD32 && h <= 0x8000 && h == Pow2(k) && k <= 15
    requires k == 15 ==> found == 0
    ensures RegisterOf(found, h) + Square(h) < WORD32
  {
    LargeSquare(found);
    Product(h, 0x8000, h);
    if k < 15 {
      BelowTop(k);
      hide Pow2;
      Product(found, 0xFFFF, 2 * h);
      Product(h, 0x4000, h);
    }
  }

  lemma LargeSquare(n: nat)
    ensures n >= 0x1_0000 ==> n * n >= WORD32
  {
    if n >= 0x1_0000 {
      Product(0x1_0000, n, n);
      Product(0x1_0000, n, 0x1_0000);
    }
  }

  lemma {:induction false} BelowTop(k: nat)
    requires k <= 14
    ensures Pow2(k) <= 0x4000
    decreases 14 - k
  {
    if k == 14 {
      Pow2Is();
      assert Pow2(15) == 2 * Pow2(14);
    } else {
      BelowTop(k + 1);
    }
  }

  lemma NextBit(found: nat, h: nat, k: nat)
    requires h == Pow2(k)
    ensures k == 0 ==> h == 1 && Square(h) / 4 == 0 && found * h == found
    ensures k > 0 ==> h == 2 * (h / 2) && h / 2 == Pow2(k - 1) && Square(h) / 4 == Square(h / 2) > 0
    ensures k > 0 ==> RegisterOf(found, h / 2) == found * h && found + 2 * (h / 2) == found + h
  {
    if k > 0 {
      var g := Pow2(k - 1);
      assert h * h == 4 * (g * g);
      assert g * g >= 1;
    }
  }

  lemma Rounded(r: nat, argument: nat, x: nat, xr: nat)
    requires x + Square(r) == argument < Square(r + 1) && xr == r && argument < WORD32
    ensures xr >= x ==> argument <= r * (r + 1) && (argument > 0 ==> r * (r - 1) < argument)
    ensures xr < x ==> (r + 1) * r < argument <= (r + 1) * (r + 2)
    ensures argument == 0 ==> r == 0
    ensures r + 1 < WORD32
  {
    LargeSquare(r);
  }
}
