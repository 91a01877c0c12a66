/** Reading the concatenated 16-bit timer slices of hal/ccu4_timer/ccu4_timer.c while they run, and the
    microsecond clock of hal/system_timer/system_timer.c. Time is counted in ticks of the lowest slice,
    respectively in core clock cycles; any time may pass between two register reads. */
module WideTimer {
  import opened Wrappers
  import opened Quotients

  const SLICE := 0x1_0000
  const WORD32 := 0x1_0000_0000
  const WORD48 := 0x1_0000_0000_0000
  const WORD64 := 0x1_0000_0000_0000_0000

  // ----- The slices -------------------------------------------------------------------------------------

  function Slice0(time: nat): nat { time % SLICE }

  function Slice1(time: nat): nat { time / SLICE % SLICE }

  function Slice2(time: nat): nat { time / WORD32 % SLICE }

  function Slice3(time: nat): nat { time / WORD48 % SLICE }

  // A pass of the 32-bit read that ends the loop: slice 1 is the same before and after slice 0.
  predicate Pass32(a1: nat, a0: nat, c1: nat) {
    a1 <= a0 <= c1 && Slice1(a1) == Slice1(c1)
  }

  function Value32(a1: nat, a0: nat): nat { Slice1(a1) * SLICE + Slice0(a0) }

  // Passing checks within this span means that no carry went into slice 1 at all.
  const SAFE_SPAN: nat := WORD32 - SLICE

  lemma SameBlock(a: nat, c: nat)
    requires a <= c <= a + SAFE_SPAN && Slice1(a) == Slice1(c)
    ensures a / SLICE == c / SLICE
  {
    var x, y := a / SLICE, c / SLICE;
    assert a == x * SLICE + a % SLICE && c == y * SLICE + c % SLICE;
    assert x == x / SLICE * SLICE + x % SLICE && y == y / SLICE * SLICE + y % SLICE;
    assert 0 <= y - x < SLICE;
  }

  lemma Between(a: nat, b: nat, c: nat)
    requires a <= b <= c && a / SLICE == c / SLICE
    ensures b / SLICE == a / SLICE
  {}

  // Then the value read is the counter at the instant slice 0 was read.
  lemma Read32(a1: nat, a0: nat, c1: nat)
    requires Pass32(a1, a0, c1) && c1 - a1 <= SAFE_SPAN
    ensures Value32(a1, a0) == a0 % WORD32
  {
    SameBlock(a1, c1);
    Between(a1, a0, c1);
    Digits32(a0);
  }

  lemma Digits32(t: nat)
    ensures t % WORD32 == Slice1(t) * SLICE + Slice0(t)
  {
    var q := t / SLICE;
    assert t == q * SLICE + t % SLICE && q == q / SLICE * SLICE + q % SLICE;
    assert t == q / SLICE * WORD32 + ((q % SLICE) * SLICE + t % SLICE);
    QuotientUnique(t, WORD32, q / SLICE, (q % SLICE) * SLICE + t % SLICE);
  }

  // Some instant of the pass at which the counter had the value that was read.
  ghost predicate TrueAtSomeInstant(value: nat, from: nat, to: nat, modulus: nat)
    requires modulus > 0
  {
    exists x: nat :: from <= x <= to && Residue(x, modulus) == value
  }

  function Residue(x: nat, modulus: nat): nat
    requires modulus > 0
  {
    x % modulus
  }

  ghost predicate Reliable32(span: nat) {
    forall a1: nat, a0: nat, c1: nat ::
      Pass32(a1, a0, c1) && c1 - a1 <= span ==> TrueAtSomeInstant(Value32(a1, a0), a1, c1, WORD32)
  }

  // The bound is exact: 2^32 ticks, the counter's full range, are already too many.
  lemma {:induction false} Reliable32Exactly(span: nat)
    ensures Reliable32(span) <==> span <= SAFE_SPAN
  {
    if span <= SAFE_SPAN {
      forall a1: nat, a0: nat, c1: nat | Pass32(a1, a0, c1) && c1 - a1 <= span
        ensures TrueAtSomeInstant(Value32(a1, a0), a1, c1, WORD32)
      {
        Read32(a1, a0, c1);
        assert Residue(a0, WORD32) == Value32(a1, a0);
      }
    } else {
      Torn32();
      assert Pass32(SLICE - 1, SLICE + 1, WORD32);
    }
  }

  // A carry between the two reads, and slice 1 all the way around before the check.
  lemma Torn32()
    ensures Pass32(SLICE - 1, SLICE + 1, WORD32) && WORD32 - (SLICE - 1) == SAFE_SPAN + 1
    ensures !TrueAtSomeInstant(Value32(SLICE - 1, SLICE + 1), SLICE - 1, WORD32, WORD32)
  {
    assert Value32(SLICE - 1, SLICE + 1) == 1;
    forall x: nat | SLICE - 1 <= x <= WORD32 ensures Residue(x, WORD32) != 1 {
      assert Residue(x, WORD32) == if x == WORD32 then 0 else x;
    }
  }

  // ----- The 64-bit read ----------------------------------------------------------------------------------

  predicate Pass64(a3: nat, a2: nat, a1: nat, a0: nat, c3: nat, c2: nat, c1: nat) {
    a3 <= a2 <= a1 <= a0 <= c3 <= c2 <= c1 &&
    Slice3(a3) == Slice3(c3) && Slice2(a2) == Slice2(c2) && Slice1(a1) == Slice1(c1)
  }

  function Value64(a3: nat, a2: nat, a1: nat, a0: nat): nat {
    Slice3(a3) * WORD48 + Slice2(a2) * WORD32 + Slice1(a1) * SLICE + Slice0(a0)
  }

  lemma SameUpper(a: nat, b: nat)
    requires a / SLICE == b / SLICE
    ensures Slice1(a) == Slice1(b) && Slice2(a) == Slice2(b) && Slice3(a) == Slice3(b)
  {
    Upper(a);
    Upper(b);
  }

  lemma Upper(t: nat)
    ensures t / WORD32 == t / SLICE / SLICE && t / WORD48 == t / SLICE / SLICE / SLICE
  {
    var q := t / SLICE;
    var p := q / SLICE;
    var o := p / SLICE;
    assert t == q * SLICE + t % SLICE && q == p * SLICE + q % SLICE && p == o * SLICE + p % SLICE;
    QuotientUnique(t, WORD32, p, (q % SLICE) * SLICE + t % SLICE);
    QuotientUnique(t, WORD48, o, (p % SLICE) * WORD32 + (q % SLICE) * SLICE + t % SLICE);
  }

  lemma Digits64(t: nat)
    ensures t % WORD64 == Slice3(t) * WORD48 + Slice2(t) * WORD32 + Slice1(t) * SLICE + Slice0(t)
  {
    Upper(t);
    var q := t / SLICE;
    var p := q / SLICE;
    var o := p / SLICE;
    assert t == q * SLICE + t % SLICE && q == p * SLICE + q % SLICE && p == o * SLICE + p % SLICE;
    assert o == o / SLICE * SLICE + o % SLICE;
    QuotientUnique(t, WORD64, o / SLICE, (o % SLICE) * WORD48 + (p % SLICE) * WORD32 + (q % SLICE) * SLICE + t % SLICE);
  }

  // The three checks together pin all upper slices to the block in which slice 0 was read.
  lemma Read64(a3: nat, a2: nat, a1: nat, a0: nat, c3: nat, c2: nat, c1: nat)
    requires Pass64(a3, a2, a1, a0, c3, c2, c1) && c1 - a1 <= SAFE_SPAN
    ensures Value64(a3, a2, a1, a0) == a0 % WORD64
  {
    SameBlock(a1, c1);
    Between(a1, a0, c1);
    Between(a1, c3, c1);
    Between(a1, c2, c1);
    SameUpper(a0, a1);
    SameUpper(a0, c2);
    SameUpper(a0, c3);
    Digits64(a0);
  }

  ghost predicate Reliable64(span: nat) {
    forall a3: nat, a2: nat, a1: nat, a0: nat, c3: nat, c2: nat, c1: nat ::
      Pass64(a3, a2, a1, a0, c3, c2, c1) && c1 - a3 <= span ==>
        TrueAtSomeInstant(Value64(a3, a2, a1, a0), a3, c1, WORD64)
  }

  lemma {:induction false} Reliable64Exactly(span: nat)
    ensures Reliable64(span) <==> span <= SAFE_SPAN
  {
    if span <= SAFE_SPAN {
      forall a3: nat, a2: nat, a1: nat, a0: nat, c3: nat, c2: nat, c1: nat
        | Pass64(a3, a2, a1, a0, c3, c2, c1) && c1 - a3 <= span
        ensures TrueAtSomeInstant(Value64(a3, a2, a1, a0), a3, c1, WORD64)
      {
        Read64(a3, a2, a1, a0, c3, c2, c1);
        assert Residue(a0, WORD64) == Value64(a3, a2, a1, a0);
      }
    } else {
      Torn64();
      assert Pass64(SLICE - 1, SLICE - 1, SLICE - 1, SLICE + 1, SLICE + 1, SLICE + 1, WORD32);
    }
  }

  lemma Torn64()
    ensures Pass64(SLICE - 1, SLICE - 1, SLICE - 1, SLICE + 1, SLICE + 1, SLICE + 1, WORD32)
    ensures !TrueAtSomeInstant(Value64(SLICE - 1, SLICE - 1, SLICE - 1, SLICE + 1), SLICE - 1, WORD32, WORD64)
  {
    assert Value64(SLICE - 1, SLICE - 1, SLICE - 1, SLICE + 1) == 1;
    forall x: nat | SLICE - 1 <= x <= WORD32 ensures Residue(x, WORD64) != 1 {
      assert Residue(x, WORD64) == x;
    }
  }

  // ----- The read loops ---------------------------------------------------------------------------------------

  predicate Increasing(at: seq<nat>) { forall i, j :: 0 <= i < j < |at| ==> at[i] <= at[j] }

  // Where the first pass that succeeds begins, passes tried one after the other from a register read on.
  function FirstPass32(at: seq<nat>, from: nat): (pass: Option<nat>)
    ensures pass.Some? ==> from <= pass.value && pass.value + 2 < |at|
    decreases |at| - from
  {
    if from + 2 >= |at| then None
    else if Slice1(at[from]) == Slice1(at[from + 2]) then Some(from)
    else FirstPass32(at, from + 3)
  }

  // Slice 1 changes at most once in less than 2^16 ticks, so that of two passes in that time one succeeds.
  lemma {:induction false} RetriesOnce32(at: seq<nat>)
    requires Increasing(at) && |at| >= 6 && at[5] - at[0] < SLICE
    ensures FirstPass32(at, 0) in {Some(0), Some(3)}
  {
    OneCarry(at[0], at[2], at[3], at[5]);
  }

  lemma OneCarry(a: nat, b: nat, c: nat, d: nat)
    requires a <= b <= c <= d && d - a < SLICE
    ensures (Slice1(a) == Slice1(b) && Slice2(a) == Slice2(b) && Slice3(a) == Slice3(b)) ||
            (Slice1(c) == Slice1(d) && Slice2(c) == Slice2(d) && Slice3(c) == Slice3(d))
  {
    if a / SLICE == b / SLICE {
      SameUpper(a, b);
    } else {
      SameUpper(c, d);
    }
  }

  // ccu4_timer_get_value_32bit; `at` are the instants of its register reads, None if it is still reading
  // after the last of them. `pass` is where the pass that ended the loop began.
  method GetValue32(at: seq<nat>) returns (value: Option<nat>, pass: nat)
    requires Increasing(at)
    ensures FirstPass32(at, 0) == if value.Some? then Some(pass) else None
    ensures value.Some? ==> Pass32(at[pass], at[pass + 1], at[pass + 2])
    ensures value.Some? && at[pass + 2] - at[pass] <= SAFE_SPAN ==> value.value == at[pass + 1] % WORD32
  {
    hide Slice0, Slice1;
    pass := 0;
    if |at| < 2 {
      return None, pass;
    }
    var t1, t0 := Slice1(at[0]), Slice0(at[1]);
    while true
      invariant pass + 2 <= |at| && t1 == Slice1(at[pass]) && t0 == Slice0(at[pass + 1])
      invariant FirstPass32(at, pass) == FirstPass32(at, 0)
      decreases |at| - pass
    {
      if pass + 2 == |at| {
        return None, pass;
      }
      if t1 == Slice1(at[pass + 2]) {
        break;
      }
      if pass + 5 > |at| {
        return None, pass;
      }
      t1, t0 := Slice1(at[pass + 3]), Slice0(at[pass + 4]);
      pass := pass + 3;
    }
    if at[pass + 2] - at[pass] <= SAFE_SPAN {
      Read32(at[pass], at[pass + 1], at[pass + 2]);
    }
    value := Some(t1 * SLICE + t0);
  }

  // A failed check leaves out the checks after it, so that the next pass begins earlier.
  function NextPass64(at: seq<nat>, from: nat): (next: nat)
    requires from + 6 < |at|
    ensures from <= next <= from + 7
  {
    if Slice3(at[from]) != Slice3(at[from + 4]) then from + 5
    else if Slice2(at[from + 1]) != Slice2(at[from + 5]) then from + 6
    else if Slice1(at[from + 2]) != Slice1(at[from + 6]) then from + 7
    else from
  }

  function FirstPass64(at: seq<nat>, from: nat): (pass: Option<nat>)
    ensures pass.Some? ==> from <= pass.value && pass.value + 6 < |at|
    decreases |at| - from
  {
    if from + 6 >= |at| then None
    else if NextPass64(at, from) == from then Some(from)
    else FirstPass64(at, NextPass64(at, from))
  }

  lemma SameSlices(a: nat, b: nat, c: nat, d: nat)
    requires a <= b <= c <= d && a / SLICE == d / SLICE
    ensures Slice1(b) == Slice1(c) && Slice2(b) == Slice2(c) && Slice3(b) == Slice3(c)
  {
    Between(a, b, d);
    Between(a, c, d);
    SameUpper(b, c);
  }

  lemma QuietPass(at: seq<nat>, from: nat)
    requires Increasing(at) && from + 6 < |at| && at[from] / SLICE == at[from + 6] / SLICE
    ensures NextPass64(at, from) == from
  {
    hide Slice1, Slice2, Slice3;
    SameSlices(at[from], at[from], at[from + 4], at[from + 6]);
    SameSlices(at[from], at[from + 1], at[from + 5], at[from + 6]);
    SameSlices(at[from], at[from + 2], at[from + 6], at[from + 6]);
  }

  // A pass only fails when slice 0 has carried before its failing check.
  lemma FailedPass(at: seq<nat>, from: nat)
    requires Increasing(at) && from + 6 < |at| && NextPass64(at, from) != from
    ensures at[from] / SLICE != at[NextPass64(at, from) - 1] / SLICE
  {
    hide Slice1, Slice2, Slice3;
    var last := at[NextPass64(at, from) - 1];
    if at[from] / SLICE == last / SLICE {
      SameSlices(at[from], at[from], at[from + 4], last);
      if NextPass64(at, from) != from + 5 {
        SameSlices(at[from], at[from + 1], at[from + 5], last);
      }
      if NextPass64(at, from) == from + 7 {
        SameSlices(at[from], at[from + 2], at[from + 6], last);
      }
    }
  }

  lemma {:induction false} RetriesOnce64(at: seq<nat>)
    requires Increasing(at) && |at| >= 14 && at[13] - at[0] < SLICE
    ensures FirstPass64(at, 0).Some? && FirstPass64(at, 0).value in {0, 5, 6, 7}
  {
    var next := NextPass64(at, 0);
    if next != 0 {
      FailedPass(at, 0);
      QuietAfterCarry(at[0], at[next - 1], at[next], at[next + 6]);
      QuietPass(at, next);
      hide NextPass64;
      assert FirstPass64(at, 0) == FirstPass64(at, next) == Some(next);
    }
  }

  lemma QuietAfterCarry(a: nat, b: nat, c: nat, d: nat)
    requires a <= b <= c <= d && d - a < SLICE && a / SLICE != b / SLICE
    ensures c / SLICE == d / SLICE
  {}

  // ccu4_timer_get_value_64bit
  method GetValue64(at: seq<nat>) returns (value: Option<nat>, pass: nat)
    requires Increasing(at)
    ensures FirstPass64(at, 0) == if value.Some? then Some(pass) else None
    ensures value.Some? ==>
              && Pass64(at[pass], at[pass + 1], at[pass + 2], at[pass + 3], at[pass + 4], at[pass + 5], at[pass + 6])
    ensures value.Some? && at[pass + 6] - at[pass + 2] <= SAFE_SPAN ==> value.value == at[pass + 3] % WORD64
  {
    hide Slice0, Slice1, Slice2, Slice3;
    pass := 0;
    var next := 0;
    while true
      invariant pass == next <= |at| && FirstPass64(at, pass) == FirstPass64(at, 0)
      decreases |at| - next
    {
      if next + 7 > |at| {
        return None, pass;
      }
      var t3, t2, t1, t0 := Slice3(at[next]), Slice2(at[next + 1]), Slice1(at[next + 2]), Slice0(at[next + 3]);
      next := next + 4;
      if t3 != Slice3(at[next]) {
        next := next + 1;
      } else if t2 != Slice2(at[next + 1]) {
        next := next + 2;
      } else if t1 != Slice1(at[next + 2]) {
        next := next + 3;
      } else {
        assert Pass64(at[pass], at[pass + 1], at[pass + 2], at[pass + 3], at[pass + 4], at[pass + 5], at[pass + 6]);
        if at[pass + 6] - at[pass + 2] <= SAFE_SPAN {
          Read64(at[pass], at[pass + 1], at[pass + 2], at[pass + 3], at[pass + 4], at[pass + 5], at[pass + 6]);
        }
        value := Some(t3 * WORD48 + t2 * WORD32 + t1 * SLICE + t0);
        return;
      }
      pass := next;
    }
  }

  // ----- Microseconds -----------------------------------------------------------------------------------------

  const CYCLES_PER_MS := 48000

  // The SysTick value counts down to 0, where its interrupt bumps the millisecond counter.
  function TickCounter(cycle: nat): nat { cycle / CYCLES_PER_MS }

  function Val(cycle: nat): nat { CYCLES_PER_MS - 1 - cycle % CYCLES_PER_MS }

  // VAL * 21845 >> 20
  function Scaled(val: nat): nat { val * 21845 / 0x10_0000 }

  // The product fits 32 bits, the quotient is a microsecond count and at most one off the division by 48.
  lemma ScaledIsClose(val: nat)
    requires val < CYCLES_PER_MS
    ensures val * 21845 < WORD32 && Scaled(val) <= 999
    ensures val / 48 - 1 <= Scaled(val) <= val / 48
  {
    var q := val / 48;
    assert 48 * q <= val <= 48 * q + 47;
    assert 21845 * val <= 21845 * 48 * q + 21845 * 47;
  }

  // What is computed from a tick counter of `ticks` when the SysTick value is read at `cycle`.
  function Reading(ticks: nat, cycle: nat): nat {
    ScaledIsClose(Val(cycle));
    ticks * 1000 + (999 - Scaled(Val(cycle)))
  }

  // With the tick interrupt handled as soon as it comes.
  function Microseconds(cycle: nat): nat { Reading(TickCounter(cycle), cycle) }

  lemma ScaledMonotone(x: nat, y: nat)
    requires x <= y
    ensures Scaled(x) <= Scaled(y)
  {}

  // The clock never runs backwards.
  lemma {:induction false} MicrosecondsMonotone(x: nat, y: nat)
    requires x <= y
    ensures Microseconds(x) <= Microseconds(y)
  {
    var a, b := TickCounter(x), TickCounter(y);
    assert x == a * CYCLES_PER_MS + x % CYCLES_PER_MS && y == b * CYCLES_PER_MS + y % CYCLES_PER_MS;
    ScaledIsClose(Val(x));
    ScaledIsClose(Val(y));
    if a == b {
      ScaledMonotone(Val(y), Val(x));
    } else {
      assert a < b;
    }
    hide Scaled, Val, TickCounter;
  }

  // It shows the number of full microseconds or one more.
  lemma {:induction false} MicrosecondsAccurate(cycle: nat)
    ensures cycle / 48 <= Microseconds(cycle) <= cycle / 48 + 1
  {
    var tick, rest := cycle / CYCLES_PER_MS, cycle % CYCLES_PER_MS;
    assert cycle == tick * CYCLES_PER_MS + rest;
    ScaledIsClose(Val(cycle));
    var q := rest / 48;
    assert rest == 48 * q + rest % 48;
    QuotientUnique(cycle, 48, tick * 1000 + q, rest % 48);
    var v := Val(cycle);
    assert v == 47999 - rest;
    QuotientUnique(v, 48, 999 - q, 47 - rest % 48);
  }

  // While ticks wait for their interrupt the counter is behind. Then the clock runs backwards against readings
  // taken before, except in the last 49 cycles of the millisecond.
  lemma {:induction false} LateTickExactly(ticks: nat, y: nat)
    requires ticks < TickCounter(y)
    ensures (forall x: nat :: TickCounter(x) <= ticks ==> Microseconds(x) <= Reading(ticks, y)) <==> Val(y) <= 48
  {
    if Val(y) <= 48 {
      forall x: nat | TickCounter(x) <= ticks ensures Microseconds(x) <= Reading(ticks, y) {
        ScaledIsClose(Val(x));
      }
    } else {
      var x := ticks * CYCLES_PER_MS + (CYCLES_PER_MS - 1);
      QuotientUnique(x, CYCLES_PER_MS, ticks, CYCLES_PER_MS - 1);
      ScaledIsClose(Val(y));
      ScaledMonotone(49, Val(y));
      assert TickCounter(x) == ticks && Microseconds(x) > Reading(ticks, y);
    }
  }

  // Every waiting tick costs exactly a millisecond of accuracy.
  lemma {:induction false} ReadingAccurate(ticks: nat, cycle: nat)
    requires ticks <= TickCounter(cycle)
    ensures var late := 1000 * (TickCounter(cycle) - ticks);
            cycle / 48 - late <= Reading(ticks, cycle) <= cycle / 48 + 1 - late
  {
    hide Scaled, Val, TickCounter;
    MicrosecondsAccurate(cycle);
  }

  // Of two readings the later one is not below the earlier one exactly if a tick was handled in between or
  // VAL has not grown visibly, whether ticks are handled in time or not.
  lemma {:induction false} ReadingOrder(m: nat, x: nat, n: nat, y: nat)
    requires m <= n
    ensures Reading(m, x) <= Reading(n, y) <==> m < n || Scaled(Val(y)) <= Scaled(Val(x))
  {
    ScaledIsClose(Val(x));
    ScaledIsClose(Val(y));
    hide Scaled, Val;
  }

  // The passes over the tick counter as the reads find it.
  function FirstPassUs(ticks: seq<nat>, from: nat): (pass: Option<nat>)
    ensures pass.Some? ==> from <= pass.value && pass.value + 2 < |ticks|
    decreases |ticks| - from
  {
    if from + 2 >= |ticks| then None
    else if ticks[from] == ticks[from + 2] then Some(from)
    else FirstPassUs(ticks, from + 3)
  }

  // Of two passes within a millisecond one succeeds.
  lemma {:induction false} RetriesOnceUs(at: seq<nat>, ticks: seq<nat>)
    requires Increasing(at) && |ticks| == |at| >= 6 && at[5] - at[0] < CYCLES_PER_MS
    requires forall i :: 0 <= i < |at| ==> ticks[i] == TickCounter(at[i])
    ensures FirstPassUs(ticks, 0) in {Some(0), Some(3)}
  {
    assert FirstPassUs(ticks, 3) == if ticks[3] == ticks[5] then Some(3) else FirstPassUs(ticks, 6);
  }

  // system_timer_get_us; `at` are the cycles of its register reads and `ticks` the tick counter at each of
  // them. The time returned is right whenever no tick was waiting while the SysTick value was read.
  method GetUs(at: seq<nat>, ticks: seq<nat>) returns (us: Option<nat>, pass: nat)
    requires Increasing(at) && Increasing(ticks) && |ticks| == |at|
    requires forall i :: 0 <= i < |at| ==> ticks[i] <= TickCounter(at[i])
    ensures FirstPassUs(ticks, 0) == if us.Some? then Some(pass) else None
    ensures us.Some? ==> us.value == Reading(ticks[pass + 1], at[pass + 1])
    ensures us.Some? ==> (us.value == Microseconds(at[pass + 1]) <==> ticks[pass + 1] == TickCounter(at[pass + 1]))
  {
    hide Val, Scaled;
    pass := 0;
    while pass + 2 < |at|
      invariant FirstPassUs(ticks, pass) == FirstPassUs(ticks, 0)
      decreases |at| - pass
    {
      var ms1 := ticks[pass];
      var part := 999 - Scaled(Val(at[pass + 1]));
      var ms2 := ticks[pass + 2];
      if ms1 == ms2 {
        ScaledInRange(at[pass + 1]);
        return Some(ms1 * 1000 + part), pass;
      }
      pass := pass + 3;
    }
    us := None;
  }

  lemma ScaledInRange(cycle: nat)
    ensures Scaled(Val(cycle)) <= 999
  {
    ScaledIsClose(Val(cycle));
  }
}
