/** The meter's values are handed out in pages of at most fifteen, with the position kept between calls. */
module MeterPaging {
  import opened Wrappers
  import opened MeterScan
  import D = MeterDrivers

  const PAGE := 15   // sixty bytes of payload, four to a value

  // What meter_update_size counts and meter_get_next_value walks over: the register-set entries from a
  // table position on; temporaries and the end marker are skipped.
  function InSetFrom(t: Table, from: nat): (ids: seq<nat>)
    requires from <= |t|
    decreases |t| - from
  {
    if from == |t| then []
    else if t[from].target.InSet? then [t[from].target.index] + InSetFrom(t, from + 1)
    else InSetFrom(t, from + 1)
  }

  function Ids(t: Table): seq<nat> { InSetFrom(t, 0) }

  function Lookup(registers: D.Registers, ids: seq<nat>): (values: seq<D.Value>)
    ensures |values| == |ids|
  {
    seq(|ids|, i requires 0 <= i < |ids| => D.ValueAt(registers, InSet(ids[i])))
  }

  lemma LookupConcat(registers: D.Registers, a: seq<nat>, b: seq<nat>)
    ensures Lookup(registers, a + b) == Lookup(registers, a) + Lookup(registers, b)
  {
    hide D.ValueAt;
  }

  lemma LookupOne(registers: D.Registers, id: nat)
    ensures Lookup(registers, [id]) == [D.ValueAt(registers, InSet(id))]
  {}

  lemma LookupNone(registers: D.Registers)
    ensures Lookup(registers, []) == []
  {}

  lemma OneMore(s: seq<nat>, i: nat)
    requires i < |s|
    ensures s[i..] != [] && s[i..][0] == s[i] && s[i..][1..] == s[i + 1..] && s[..i + 1] == s[..i] + [s[i]]
  {}

  lemma Slices(s: seq<nat>, start: nat, n: nat)
    requires start + n <= |s|
    ensures |s[start..]| == |s| - start
    ensures s[start..][..n] == s[start..start + n] && s[start..][n..] == s[start + n..]
    ensures s[..start] + s[start..start + n] == s[..start + n]
    ensures s[start..start] == [] && s[0..] == s == s[..|s|]
  {}

  datatype Response = Response(valuesLength: nat, offset: nat, chunk: seq<D.Value>)

  class Pager {
    const table: Table
    const size: nat                // meter.current_meter_size
    var currentIndex: nat          // meter.current_meter_index
    var packetIndex: nat           // static packet_payload_index

    // Everything before the current page has been handed out.
    ghost predicate Valid()
      reads this
    {
      size == |Ids(table)| && packetIndex * PAGE <= size && (packetIndex > 0 ==> packetIndex * PAGE < size) &&
      (packetIndex > 0 ==>
        currentIndex <= |table| && InSetFrom(table, currentIndex) == Ids(table)[packetIndex * PAGE..])
    }

    // meter_update_size
    constructor (t: Table)
      ensures Valid() && table == t && packetIndex == 0
    {
      table := t;
      size := |Ids(t)|;
      currentIndex, packetIndex := 0, 0;
    }

    // meter_get_next_value
    method GetNextValue(registers: D.Registers) returns (value: D.Value)
      requires currentIndex <= |table|
      modifies this`currentIndex
      ensures currentIndex <= |table|
      ensures var ids := old(InSetFrom(table, currentIndex));
              if size == 0 then value == D.NaN && currentIndex == old(currentIndex)
              else if ids == [] then value == D.NaN && InSetFrom(table, currentIndex) == []
              else value == D.ValueAt(registers, InSet(ids[0])) && InSetFrom(table, currentIndex) == ids[1..]
    {
      hide D.ValueAt;
      if size == 0 {
        return D.NaN;
      }
      while true
        invariant currentIndex <= |table| && InSetFrom(table, currentIndex) == old(InSetFrom(table, currentIndex))
        decreases |table| - currentIndex
      {
        if currentIndex >= |table| {
          return D.NaN;
        }
        var target := table[currentIndex].target;
        currentIndex := currentIndex + 1;
        if target.EndMarker? {
          continue;
        }
        if target.Temporary? {
          continue;
        }
        return D.ValueAt(registers, target);
      }
    }

    // The copy loop of meter_fill_communication_values.
    method NextValues(registers: D.Registers, copyNum: nat) returns (chunk: seq<D.Value>)
      requires currentIndex <= |table| && size > 0 && copyNum <= |InSetFrom(table, currentIndex)|
      modifies this`currentIndex
      ensures currentIndex <= |table| &&
              InSetFrom(table, currentIndex) == old(InSetFrom(table, currentIndex))[copyNum..]
      ensures chunk == Lookup(registers, old(InSetFrom(table, currentIndex))[..copyNum])
    {
      ghost var ids := InSetFrom(table, currentIndex);
      hide InSetFrom, Lookup, D.ValueAt;
      chunk := [];
      LookupNone(registers);
      for i := 0 to copyNum
        invariant currentIndex <= |table| && InSetFrom(table, currentIndex) == ids[i..]
        invariant chunk == Lookup(registers, ids[..i])
      {
        OneMore(ids, i);
        LookupOne(registers, ids[i]);
        LookupConcat(registers, ids[..i], [ids[i]]);
        var value := GetNextValue(registers);
        chunk := chunk + [value];
      }
    }

    // meter_fill_communication_values
    method Fill(registers: D.Registers) returns (response: Response)
      requires Valid()
      modifies this
      ensures Valid()
      ensures var start := old(packetIndex) * PAGE;
              var end := Min(start + PAGE, size);
              && start <= end && response.valuesLength == size && response.offset == start
              && response.chunk == Lookup(registers, Ids(table)[start..end])
      ensures packetIndex == if old(packetIndex) * PAGE + PAGE < size then old(packetIndex) + 1 else 0
    {
      ghost var ids := Ids(table);
      hide InSetFrom, Lookup;
      var start := packetIndex * PAGE;
      var end := Min(start + PAGE, size);
      var copyNum := end - start;
      Slices(ids, start, copyNum);
      if packetIndex == 0 {
        currentIndex := 0;
      }
      var chunk: seq<D.Value> := [];
      LookupNone(registers);
      if copyNum > 0 {
        chunk := NextValues(registers, copyNum);
      }
      response := Response(size, start, chunk);
      if end < size {
        packetIndex := packetIndex + 1;
      } else {
        packetIndex := 0;
      }
    }
  }

  lemma NextPage(registers: D.Registers, ids: seq<nat>, before: nat, after: nat)
    requires before <= after <= |ids|
    ensures Lookup(registers, ids[..before]) + Lookup(registers, ids[before..after]) == Lookup(registers, ids[..after])
  {
    hide Lookup;
    LookupConcat(registers, ids[..before], ids[before..after]);
    Slices(ids, before, after - before);
  }

  // A client that asks until the announced number of values has arrived gets the value of every
  // register-set entry in table order, page by page, and leaves the pager at the first page again.
  method ReadAll(pager: Pager, registers: D.Registers) returns (values: seq<D.Value>, pages: nat)
    requires pager.Valid() && pager.packetIndex == 0
    modifies pager
    ensures pager.Valid() && pager.packetIndex == 0
    ensures values == Lookup(registers, Ids(pager.table))
    ensures |values| <= pages * PAGE && (pages > 1 ==> (pages - 1) * PAGE < |values|)
  {
    ghost var ids := Ids(pager.table);
    hide InSetFrom, Lookup, Ids;
    var response := pager.Fill(registers);
    values, pages := response.chunk, 1;
    Slices(ids, 0, Min(PAGE, pager.size));
    while |values| < response.valuesLength
      invariant pager.Valid() && response.valuesLength == pager.size && 1 <= pages
      invariant |values| == Min(pages * PAGE, pager.size)
      invariant values == Lookup(registers, ids[..|values|])
      invariant pages > 1 ==> (pages - 1) * PAGE < pager.size
      invariant pager.packetIndex == if |values| < pager.size then pages else 0
      decreases response.valuesLength - |values|
    {
      ghost var before := |values|;
      response := pager.Fill(registers);
      values := values + response.chunk;
      pages := pages + 1;
      NextPage(registers, ids, before, |values|);
    }
    Slices(ids, 0, |ids|);
  }
}
