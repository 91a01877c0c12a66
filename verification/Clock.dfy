/** Thirty-two-bit time stamps that wrap around. */
module Clock {
  const WRAP: nat := 0x1_0000_0000

  function Stamp(time: nat): nat { time % WRAP }

  // system_timer_is_time_elapsed_ms
  predicate Elapsed(now: nat, start: nat, period: nat) {
    (now - start) % WRAP >= period
  }

  // What the wrapping test reports has really passed.
  lemma ElapsedIsReal(time: nat, start: nat, period: nat)
    requires start <= time && Elapsed(Stamp(time), Stamp(start), period)
    ensures time - start >= period
  {
    StampDifference(time, start);
  }

  lemma StampDifference(time: nat, start: nat)
    requires start <= time
    ensures (Stamp(time) - Stamp(start)) % WRAP == (time - start) % WRAP
    ensures (time - start) % WRAP <= time - start
  {
    var a, b := time / WRAP, start / WRAP;
    assert time == a * WRAP + Stamp(time) && start == b * WRAP + Stamp(start);
  }

  // Within one wrap the test is exact.
  lemma ElapsedWithinWrap(time: nat, start: nat, period: nat)
    requires start <= time < start + WRAP
    ensures Elapsed(Stamp(time), Stamp(start), period) <==> time - start >= period
  {
    StampDifference(time, start);
  }
}
