/** The rotating dispatcher of utility/communication_callback.c: a handler that has sent moves to the end of
    the table, the others move up. */
module Dispatcher {
  // The calls that returned `sent`, in table order.
  function Filter<H>(table: seq<H>, sent: seq<bool>, want: bool): (kept: seq<H>)
    requires |table| == |sent|
    ensures |kept| == CountOf(sent, want)
    decreases |table|
  {
    if table == [] then []
    else
      var n := |table| - 1;
      Filter(table[..n], sent[..n], want) + (if sent[n] == want then [table[n]] else [])
  }

  function CountOf(sent: seq<bool>, want: bool): (count: nat)
    ensures count <= |sent|
    decreases |sent|
  {
    if sent == [] then 0 else CountOf(sent[..|sent| - 1], want) + if sent[|sent| - 1] == want then 1 else 0
  }

  lemma {:induction false} CountsSum(sent: seq<bool>)
    ensures CountOf(sent, false) + CountOf(sent, true) == |sent|
    decreases |sent|
  {
    if sent != [] {
      CountsSum(sent[..|sent| - 1]);
    }
  }

  lemma {:induction false} CountGrows(sent: seq<bool>, k: nat, want: bool)
    requires k <= |sent|
    ensures CountOf(sent[..k], want) <= CountOf(sent, want)
    ensures k < |sent| && sent[k] == want ==> CountOf(sent[..k], want) < CountOf(sent, want)
    decreases |sent|
  {
    if k < |sent| {
      var n := |sent| - 1;
      CountGrows(sent[..n], k, want);
      assert sent[..n][..k] == sent[..k];
    } else {
      assert sent[..k] == sent;
    }
  }

  // One tick: the stable partition into handlers that returned false and handlers that returned true.
  function Ticked<H>(table: seq<H>, sent: seq<bool>): (after: seq<H>)
    requires |table| == |sent|
    ensures |after| == |table|
  {
    CountsSum(sent);
    Filter(table, sent, false) + Filter(table, sent, true)
  }

  // communication_callback_tick after its rate limit. sent[k] is what the k-th call returns; `called`
  // records which handlers were called.
  method Tick<H>(callbacks: array<H>, sent: seq<bool>) returns (called: seq<H>)
    requires |sent| == callbacks.Length
    modifies callbacks
    ensures called == old(callbacks[..])
    ensures callbacks[..] == Ticked(old(callbacks[..]), sent)
  {
    hide Middle, Filter, CountOf;
    ghost var table := callbacks[..];
    called := [];
    var cbIndex := 0;
    NothingCalled(table, sent);
    NoCalls(sent);
    for k := 0 to callbacks.Length
      invariant called == table[..k] && cbIndex == CountOf(sent[..k], false) <= k
      invariant callbacks[..] == Middle(table, sent, k)
    {
      MiddleAt(table, sent, k);
      NextCall(table, sent, k);
      called := called + [callbacks[cbIndex]];
      if sent[k] {
        MoveToEnd(callbacks, cbIndex);
      } else {
        cbIndex := cbIndex + 1;
      }
    }
    AllCalled(table, sent);
  }

  lemma AllCalled<H>(table: seq<H>, sent: seq<bool>)
    requires |table| == |sent|
    ensures table[..|table|] == table && Middle(table, sent, |table|) == Ticked(table, sent)
  {
    assert sent[..|sent|] == sent && table[..|table|] == table;
  }

  method MoveToEnd<H>(callbacks: array<H>, cbIndex: nat)
    requires cbIndex < callbacks.Length
    modifies callbacks
    ensures callbacks[..] == old(callbacks[..cbIndex] + callbacks[cbIndex + 1..] + [callbacks[cbIndex]])
  {
    var current := callbacks[cbIndex];
    ghost var before := callbacks[..];
    for i := cbIndex to callbacks.Length - 1
      invariant forall k :: cbIndex <= k < i ==> callbacks[k] == before[k + 1]
      invariant forall k :: 0 <= k < cbIndex || i <= k < callbacks.Length ==> callbacks[k] == before[k]
    {
      assert callbacks[i + 1] == before[i + 1];
      callbacks[i] := callbacks[i + 1];
    }
    callbacks[callbacks.Length - 1] := current;
    assert callbacks[..] == before[..cbIndex] + before[cbIndex + 1..] + [current];
  }

  lemma NoCalls(sent: seq<bool>)
    ensures CountOf(sent[..0], false) == 0
  {}

  // The table after k calls: those that returned false, those still to be called, those that returned true.
  function Middle<H>(table: seq<H>, sent: seq<bool>, k: nat): seq<H>
    requires |table| == |sent| && k <= |table|
  {
    Filter(table[..k], sent[..k], false) + table[k..] + Filter(table[..k], sent[..k], true)
  }

  lemma NothingCalled<H>(table: seq<H>, sent: seq<bool>)
    requires |sent| == |table|
    ensures Middle(table, sent, 0) == table
  {}

  lemma MiddleAt<H>(table: seq<H>, sent: seq<bool>, k: nat)
    requires |table| == |sent| && k < |table|
    ensures var c := CountOf(sent[..k], false);
            c < |table| && |Middle(table, sent, k)| == |table| && Middle(table, sent, k)[c] == table[k]
  {
    CountsSum(sent[..k]);
  }

  lemma NextCall<H>(table: seq<H>, sent: seq<bool>, k: nat)
    requires |table| == |sent| && k < |table|
    ensures table[..k + 1] == table[..k] + [table[k]]
    ensures CountOf(sent[..k + 1], false) == CountOf(sent[..k], false) + if sent[k] then 0 else 1
    ensures var now, c := Middle(table, sent, k), CountOf(sent[..k], false);
            c < |now| &&
            Middle(table, sent, k + 1) == if sent[k] then now[..c] + now[c + 1..] + [now[c]] else now
  {
    hide Filter, CountOf;
    MiddleAt(table, sent, k);
    FilterNext(table, sent, k, true);
    FilterNext(table, sent, k, false);
    CountNext(sent, k);
    assert table[k..] == [table[k]] + table[k + 1..];
    Rotated(Filter(table[..k], sent[..k], false), table[k], table[k + 1..], Filter(table[..k], sent[..k], true));
  }

  lemma Rotated<H>(kept: seq<H>, h: H, rest: seq<H>, moved: seq<H>)
    ensures var now, c := kept + ([h] + rest) + moved, |kept|;
            && now[..c] + now[c + 1..] + [now[c]] == kept + rest + (moved + [h])
            && now == (kept + [h]) + rest + moved
  {
    var now, c := kept + ([h] + rest) + moved, |kept|;
    assert now[..c] == kept && now[c] == h && now[c + 1..] == rest + moved;
  }

  lemma CountNext(sent: seq<bool>, k: nat)
    requires k < |sent|
    ensures CountOf(sent[..k + 1], false) == CountOf(sent[..k], false) + if sent[k] then 0 else 1
  {
    assert sent[..k + 1][..k] == sent[..k];
  }

  lemma FilterNext<H>(table: seq<H>, sent: seq<bool>, k: nat, want: bool)
    requires |table| == |sent| && k < |table|
    ensures Filter(table[..k + 1], sent[..k + 1], want) ==
            Filter(table[..k], sent[..k], want) + if sent[k] == want then [table[k]] else []
  {
    assert sent[..k + 1][..k] == sent[..k] && table[..k + 1][..k] == table[..k];
  }

  // ----- Where a handler goes ---------------------------------------------------------------------------

  function NewIndex(sent: seq<bool>, k: nat): nat
    requires k < |sent|
  {
    if sent[k] then CountOf(sent, false) + CountOf(sent[..k], true) else CountOf(sent[..k], false)
  }

  lemma {:induction false} FilterAt<H>(table: seq<H>, sent: seq<bool>, k: nat)
    requires |table| == |sent| && k < |table|
    ensures var kept, i := Filter(table, sent, sent[k]), CountOf(sent[..k], sent[k]);
            i < |kept| && kept[i] == table[k]
    decreases |table|
  {
    CountGrows(sent, k, sent[k]);
    var n := |table| - 1;
    if k < n {
      FilterAt(table[..n], sent[..n], k);
      assert sent[..n][..k] == sent[..k];
    }
  }

  // The handler called k-th stands at its new index after the tick: one that returned false moves forward
  // by exactly the number of handlers ahead of it that returned true, one that returned true goes behind
  // all that returned false.
  lemma {:induction false} Moves<H>(table: seq<H>, sent: seq<bool>, k: nat)
    requires |table| == |sent| && k < |table|
    ensures var i := NewIndex(sent, k);
            && i < |table| && Ticked(table, sent)[i] == table[k]
            && (!sent[k] ==> i == k - CountOf(sent[..k], true) <= k)
            && (sent[k] ==> i >= CountOf(sent, false))
  {
    FilterAt(table, sent, k);
    CountsSum(sent);
    CountsSum(sent[..k]);
  }

  // No two handlers end up in one place, so the tick loses and doubles none.
  lemma NewIndexesDiffer(sent: seq<bool>, j: nat, k: nat)
    requires j < k < |sent|
    ensures NewIndex(sent, j) != NewIndex(sent, k)
    ensures sent[j] == sent[k] ==> NewIndex(sent, j) < NewIndex(sent, k)
  {
    CountGrows(sent[..k], j, sent[j]);
    assert sent[..k][..j] == sent[..j];
    CountGrows(sent, j, false);
    CountGrows(sent, k, false);
  }

  // ----- Many ticks ---------------------------------------------------------------------------------------

  // Where the handler at index k stands after these ticks.
  function Track(ticks: seq<seq<bool>>, size: nat, k: nat): nat
    requires k < size && forall i :: 0 <= i < |ticks| ==> |ticks[i]| == size
    decreases |ticks|
  {
    if ticks == [] then k else
    Moves(ticks[0], ticks[0], k);
    Track(ticks[1..], size, NewIndex(ticks[0], k))
  }

  function TickedAll<H>(table: seq<H>, ticks: seq<seq<bool>>): (after: seq<H>)
    requires forall i :: 0 <= i < |ticks| ==> |ticks[i]| == |table|
    ensures |after| == |table|
    decreases |ticks|
  {
    if ticks == [] then table else TickedAll(Ticked(table, ticks[0]), ticks[1..])
  }

  // The handler never returns true during these ticks.
  predicate KeepsWaiting(ticks: seq<seq<bool>>, size: nat, k: nat)
    requires k < size && forall i :: 0 <= i < |ticks| ==> |ticks[i]| == size
    decreases |ticks|
  {
    ticks != [] ==>
      (Moves(ticks[0], ticks[0], k);
       !ticks[0][k] && KeepsWaiting(ticks[1..], size, NewIndex(ticks[0], k)))
  }

  // How many handlers ahead of it returned true, all ticks together.
  function Overtaken(ticks: seq<seq<bool>>, size: nat, k: nat): nat
    requires k < size && forall i :: 0 <= i < |ticks| ==> |ticks[i]| == size
    decreases |ticks|
  {
    if ticks == [] then 0 else
    Moves(ticks[0], ticks[0], k);
    CountOf(ticks[0][..k], true) + Overtaken(ticks[1..], size, NewIndex(ticks[0], k))
  }

  // Bounded waiting: over any number of ticks a handler that keeps returning false never moves back; it
  // advances by exactly the number of times a handler ahead of it returned true, so that this happens at
  // most as often as there were handlers ahead of it at first.
  lemma {:induction false} BoundedWaiting<H>(table: seq<H>, ticks: seq<seq<bool>>, k: nat)
    requires k < |table| && forall i :: 0 <= i < |ticks| ==> |ticks[i]| == |table|
    requires KeepsWaiting(ticks, |table|, k)
    ensures var i := Track(ticks, |table|, k);
            i < |table| && TickedAll(table, ticks)[i] == table[k] &&
            i + Overtaken(ticks, |table|, k) == k
    decreases |ticks|
  {
    if ticks != [] {
      Moves(table, ticks[0], k);
      Moves(ticks[0], ticks[0], k);
      hide Ticked, Filter, NewIndex, CountOf;
      BoundedWaiting(Ticked(table, ticks[0]), ticks[1..], NewIndex(ticks[0], k));
    }
  }
}
