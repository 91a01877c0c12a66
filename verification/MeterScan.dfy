/** The scans over a meter's register table: the drivers move to the next fast or the next full-read
    entry and start over at the end marker. */
module MeterScan {
  import opened Quotients

  datatype DataType = Float | Int32 | Int16 | T2 | T3 | T5 | T6 | T7 | T16 | T17

  // Where a register's value goes: into the register set, into a temporary, or nowhere (end of table).
  datatype Target = EndMarker | InSet(index: nat) | Temporary(index: nat)

  datatype Definition = Definition(register: nat, target: Target, dataType: DataType, fast: bool)

  type Table = seq<Definition>

  // Calculated values follow the stop marker; the scans never reach them.
  function Marker(t: Table, from: nat): (i: nat)
    requires from <= |t|
    ensures from <= i <= |t| && (i < |t| ==> t[i].target.EndMarker?)
    decreases |t| - from
  {
    if from == |t| || t[from].target.EndMarker? then from else Marker(t, from + 1)
  }

  // The number of entries before the stop marker.
  function Count(t: Table): (count: nat)
    ensures count <= |t|
  {
    Marker(t, 0)
  }

  // No entry before the stop marker is one.
  lemma {:induction false} NoMarkerBelow(t: Table, from: nat, i: nat)
    requires from <= |t| && from <= i < Marker(t, from)
    ensures !t[i].target.EndMarker?
    decreases |t| - from
  {
    if from < i {
      NoMarkerBelow(t, from + 1, i);
    }
  }

  lemma MarkerAt(t: Table, i: nat)
    requires Terminated(t) && i <= Count(t)
    ensures i < |t| && (t[i].target.EndMarker? <==> i == Count(t))
  {
    if i < Count(t) {
      NoMarkerBelow(t, 0, i);
    }
  }

  predicate Terminated(t: Table) { 0 < Count(t) < |t| }

  // Every driver scan needs an entry of either kind before the end marker.
  ghost predicate HasBothKinds(t: Table) {
    Terminated(t) && HasKind(t, true) && HasKind(t, false)
  }

  ghost predicate HasKind(t: Table, fast: bool) {
    exists i :: 0 <= i < Count(t) && t[i].fast == fast
  }

  // meter_get_register_size, in sixteen-bit registers
  function RegisterSize(d: Definition): (size: nat)
    ensures size == 1 <==> d.dataType in {Int16, T2, T16, T17}
    ensures size == 1 || size == 2
  {
    match d.dataType
    case Int16 => 1
    case T2 => 1
    case T16 => 1
    case T17 => 1
    case _ => 2
  }

  // ----- One scan ---------------------------------------------------------------------------------

  // The first entry of the kind at or after a position, or the end marker.
  function Upward(t: Table, from: nat, fast: bool): (i: nat)
    requires Terminated(t) && from <= Count(t)
    ensures from <= i <= Count(t) && (i < Count(t) ==> t[i].fast == fast)
    decreases |t| - from
  {
    if from == Count(t) || t[from].fast == fast then from else Upward(t, from + 1, fast)
  }

  // It skips no entry of the kind.
  lemma {:induction false} UpwardIsFirst(t: Table, from: nat, fast: bool, k: nat)
    requires Terminated(t) && from <= k < Count(t) && t[k].fast == fast
    ensures Upward(t, from, fast) <= k
    decreases |t| - from
  {
    hide Terminated, Count;
    if from < k && t[from].fast != fast {
      UpwardIsFirst(t, from + 1, fast, k);
    }
  }

  lemma SomeOfKind(t: Table, fast: bool)
    requires Terminated(t) && HasKind(t, fast)
    ensures Upward(t, 0, fast) < Count(t)
  {
    var k :| 0 <= k < Count(t) && t[k].fast == fast;
    UpwardIsFirst(t, 0, fast, k);
  }

  // Where a scan goes from a position, and whether it passed the end marker.
  datatype Move = Move(position: nat, wrapped: bool)

  function NextEntry(t: Table, position: nat, fast: bool): (next: Move)
    requires Terminated(t) && HasKind(t, fast) && position < Count(t)
    ensures next.position < Count(t) && t[next.position].fast == fast
  {
    SomeOfKind(t, fast);
    var i := Upward(t, position + 1, fast);
    if i < Count(t) then Move(i, false) else Move(Upward(t, 0, fast), true)
  }

  // ----- The loop of the drivers --------------------------------------------------------------------

  // The do-while loop that moves a position; `wraps` counts how often its end-marker branch is taken.
  method Scan(t: Table, position: nat, fast: bool) returns (next: nat, wraps: nat)
    requires Terminated(t) && HasKind(t, fast) && position < Count(t)
    ensures Move(next, wraps == 1) == NextEntry(t, position, fast) && wraps <= 1
  {
    SomeOfKind(t, fast);
    hide HasKind, Terminated, Count;
    next := position + 1;
    wraps := 0;
    MarkerAt(t, next);
    if t[next].target.EndMarker? {
      next := 0;
      wraps := 1;
    }
    while t[next].fast != fast
      invariant wraps <= 1 && next < Count(t)
      invariant Upward(t, position + 1, fast) == if wraps == 0 then Upward(t, next, fast) else Count(t)
      invariant wraps == 0 ==> next > position
      invariant wraps == 1 ==> Upward(t, 0, fast) == Upward(t, next, fast)
      decreases 1 - wraps, Count(t) - next
    {
      next := next + 1;
      MarkerAt(t, next);
      if t[next].target.EndMarker? {
        next := 0;
        wraps := wraps + 1;
      }
    }
  }

  // ----- Whole cycles -------------------------------------------------------------------------------

  // The positions of one kind in table order.
  function Positions(t: Table, from: nat, fast: bool): (ps: seq<nat>)
    requires Terminated(t) && from <= Count(t)
    decreases |t| - from
  {
    if from == Count(t) then []
    else if t[from].fast == fast then [from] + Positions(t, from + 1, fast)
    else Positions(t, from + 1, fast)
  }

  lemma {:induction false} PositionsSkip(t: Table, from: nat, fast: bool)
    requires Terminated(t) && from <= Count(t)
    ensures var i := Upward(t, from, fast);
            Positions(t, from, fast) == if i == Count(t) then [] else [i] + Positions(t, i + 1, fast)
    decreases |t| - from
  {
    hide Terminated, Count;
    if from < Count(t) && t[from].fast != fast {
      PositionsSkip(t, from + 1, fast);
    }
  }

  lemma {:induction false} PositionsOfKind(t: Table, from: nat, fast: bool)
    requires Terminated(t) && from <= Count(t)
    ensures forall p :: p in Positions(t, from, fast) ==> from <= p < Count(t) && t[p].fast == fast
    decreases |t| - from
  {
    hide Terminated, Count;
    if from < Count(t) {
      PositionsOfKind(t, from + 1, fast);
    }
  }

  predicate Ascending(ps: seq<nat>) { forall j, k :: 0 <= j < k < |ps| ==> ps[j] < ps[k] }

  lemma Prepended(first: nat, rest: seq<nat>)
    requires Ascending(rest) && forall p :: p in rest ==> first < p
    ensures Ascending([first] + rest)
  {
    forall j, k | 0 <= j < k < |[first] + rest| ensures ([first] + rest)[j] < ([first] + rest)[k] {
      assert rest[k - 1] in rest;
    }
  }

  lemma {:induction false} PositionsAscend(t: Table, from: nat, fast: bool)
    requires Terminated(t) && from <= Count(t)
    ensures Ascending(Positions(t, from, fast))
    decreases |t| - from
  {
    hide Terminated, Count, Ascending;
    if from < Count(t) {
      PositionsAscend(t, from + 1, fast);
      PositionsOfKind(t, from + 1, fast);
      var rest := Positions(t, from + 1, fast);
      Prepended(from, rest);
    } else {
      NoneAscend();
    }
  }

  lemma NoneAscend()
    ensures Ascending([])
  {}

  lemma {:induction false} AllOfKind(t: Table, from: nat, fast: bool, i: nat)
    requires Terminated(t) && from <= i < Count(t) && t[i].fast == fast
    ensures i in Positions(t, from, fast)
    decreases |t| - from
  {
    hide Terminated, Count;
    if from < i {
      AllOfKind(t, from + 1, fast, i);
    }
  }

  // They are exactly the entries of the kind, each once.
  lemma PositionsAre(t: Table, from: nat, fast: bool)
    requires Terminated(t) && from <= Count(t)
    ensures var ps := Positions(t, from, fast);
            && (forall i :: i in ps <==> from <= i < Count(t) && t[i].fast == fast)
            && Ascending(ps)
  {
    hide Positions, Terminated, Count;
    PositionsOfKind(t, from, fast);
    PositionsAscend(t, from, fast);
    forall i: nat | i < |t| && from <= i < Count(t) && t[i].fast == fast ensures i in Positions(t, from, fast) {
      AllOfKind(t, from, fast, i);
    }
  }


  // From an entry of the kind, the scan finds the head of what is left of the table.
  lemma FirstIsSuccessor(t: Table, i: nat, fast: bool)
    requires Terminated(t) && HasKind(t, fast) && i < Count(t)
    ensures var rest, all := Positions(t, i + 1, fast), Positions(t, 0, fast);
            && |all| > 0
            && NextEntry(t, i, fast) == if |rest| > 0 then Move(rest[0], false) else Move(all[0], true)
  {
    SomeOfKind(t, fast);
    hide Positions, Upward, Terminated, HasKind;
    PositionsSkip(t, i + 1, fast);
    PositionsSkip(t, 0, fast);
  }

  // One scan moves to the cyclic successor among the entries of its kind and reports the wrap.
  lemma {:induction false} NextIsSuccessor(t: Table, from: nat, fast: bool, k: nat)
    requires Terminated(t) && HasKind(t, fast) && from <= Count(t) && k < |Positions(t, from, fast)|
    ensures var ps := Positions(t, from, fast);
            && ps[k] < Count(t) && |Positions(t, 0, fast)| > 0
            && NextEntry(t, ps[k], fast) ==
                 if k + 1 < |ps| then Move(ps[k + 1], false) else Move(Positions(t, 0, fast)[0], true)
    decreases k
  {
    hide Positions, Upward, Terminated, HasKind, NextEntry;
    PositionsSkip(t, from, fast);
    var i := Upward(t, from, fast);
    var rest := Positions(t, i + 1, fast);
    assert Positions(t, from, fast) == [i] + rest;
    if k == 0 {
      FirstIsSuccessor(t, i, fast);
    } else {
      NextIsSuccessor(t, i + 1, fast, k - 1);
    }
  }

  // A wrap shows in the position.
  lemma WrapGoesBack(t: Table, position: nat, fast: bool)
    requires Terminated(t) && HasKind(t, fast) && position < Count(t)
    ensures var next := NextEntry(t, position, fast); next.wrapped <==> next.position <= position
  {
    hide Terminated, Count;
    var next := NextEntry(t, position, fast);
    if next.wrapped && next.position > position {
      UpwardIsFirst(t, position + 1, fast, next.position);
    }
  }

  // Any number of scans: the position reached and how often the end marker was passed.
  datatype Walk = Walk(position: nat, wraps: nat)

  function ScanMany(t: Table, position: nat, fast: bool, n: nat): Walk
    requires Terminated(t) && HasKind(t, fast) && position < Count(t)
    decreases n
  {
    if n == 0 then Walk(position, 0) else
    var next := NextEntry(t, position, fast);
    Onward(ScanMany(t, next.position, fast, n - 1), next.wrapped)
  }

  function Onward(w: Walk, wrapped: bool): Walk { w.(wraps := w.wraps + if wrapped then 1 else 0) }

  // The i-th place, counted around the cycle.
  function PlaceAt(ps: seq<nat>, i: nat): Walk
    requires |ps| > 0
  {
    Walk(ps[Seat(i, |ps|)], Lap(i, |ps|))
  }

  function Lap(x: nat, size: nat): nat
    requires size > 0
  {
    x / size
  }

  function Seat(x: nat, size: nat): (seat: nat)
    requires size > 0
    ensures seat < size
  {
    x % size
  }

  // From the k-th entry of its kind, n scans lead to the (k + n)-th, counted around the cycle.
  lemma {:induction false} ScansFromEntry(t: Table, fast: bool, k: nat, n: nat)
    requires Terminated(t) && HasKind(t, fast) && k < |Positions(t, 0, fast)|
    ensures var ps := Positions(t, 0, fast);
            ps[k] < Count(t) && ScanMany(t, ps[k], fast, n) == PlaceAt(ps, k + n)
    decreases n
  {
    var ps := Positions(t, 0, fast);
    hide Positions, NextEntry, Terminated, HasKind, Count, PlaceAt;
    NextIsSuccessor(t, 0, fast, k);
    if n == 0 {
      FirstPlace(ps, k);
    } else if k + 1 < |ps| {
      ScansFromEntry(t, fast, k + 1, n - 1);
    } else {
      ScansFromEntry(t, fast, 0, n - 1);
      NextPlace(ps, n - 1);
    }
  }

  lemma FirstPlace(ps: seq<nat>, k: nat)
    requires k < |ps|
    ensures PlaceAt(ps, k) == Walk(ps[k], 0)
  {
    FirstLap(k, |ps|);
  }

  lemma NextPlace(ps: seq<nat>, i: nat)
    requires |ps| > 0
    ensures PlaceAt(ps, |ps| + i) == Onward(PlaceAt(ps, i), true)
  {
    NextLap(i, |ps|);
  }

  // What is left from a later position on is the end of all positions.
  lemma {:induction false} HeadOfRest(t: Table, from: nat, later: nat, fast: bool)
    requires Terminated(t) && from <= later <= Count(t)
    ensures var all, rest := Positions(t, from, fast), Positions(t, later, fast);
            |rest| <= |all| && (|rest| > 0 ==> all[|all| - |rest|] == rest[0])
    decreases |t| - from
  {
    hide Terminated, Count, Positions;
    if from < later {
      HeadOfRest(t, from + 1, later, fast);
      OnePosition(t, from, fast);
      var next, rest := Positions(t, from + 1, fast), Positions(t, later, fast);
      assert |rest| > 0 ==> ([from] + next)[|next| + 1 - |rest|] == next[|next| - |rest|];
    }
  }

  lemma OnePosition(t: Table, from: nat, fast: bool)
    requires Terminated(t) && from < Count(t)
    ensures var next := Positions(t, from + 1, fast);
            Positions(t, from, fast) == if t[from].fast == fast then [from] + next else next
  {
    hide Terminated, Count;
  }

  // How many entries of the kind stand at or before a position.
  function Passed(t: Table, position: nat, fast: bool): int
    requires Terminated(t) && position < Count(t)
  {
    |Positions(t, 0, fast)| - |Positions(t, position + 1, fast)|
  }

  // From any position of the table, of the kind or not, n scans lead to the n-th entry of the kind behind it,
  // counted around the cycle, and have reported a finished cycle exactly as often as they went around.
  lemma {:induction false} ScansCycle(t: Table, position: nat, fast: bool, n: nat)
    requires Terminated(t) && HasKind(t, fast) && position < Count(t) && n > 0
    ensures var ps, i := Positions(t, 0, fast), Passed(t, position, fast) + n - 1;
            |ps| > 0 && i >= 0 && ScanMany(t, position, fast, n) == PlaceAt(ps, i)
  {
    var ps, rest := Positions(t, 0, fast), Positions(t, position + 1, fast);
    hide Positions, NextEntry, Terminated, HasKind, Count, PlaceAt;
    FirstIsSuccessor(t, position, fast);
    HeadOfRest(t, 0, position + 1, fast);
    if |rest| > 0 {
      ScansFromEntry(t, fast, |ps| - |rest|, n - 1);
    } else {
      ScansFromEntry(t, fast, 0, n - 1);
      NextPlace(ps, n - 1);
    }
  }

  lemma FirstLap(x: nat, size: nat)
    requires x < size
    ensures Seat(x, size) == x && Lap(x, size) == 0
  {
    QuotientUnique(x, size, 0, x);
  }

  lemma NextLap(x: nat, size: nat)
    requires size > 0
    ensures Seat(x + size, size) == Seat(x, size) && Lap(x + size, size) == Lap(x, size) + 1
  {
    var q, r := x / size, x % size;
    assert x + size == (q + 1) * size + r;
    QuotientUnique(x + size, size, q + 1, r);
  }
}
