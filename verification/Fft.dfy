/** The in-place radix-4 passes: which points each butterfly takes, and that every pass computes the same
    as it would out of place. */
module Fft {
  import opened Quotients
  import opened Butterflies

  // ----- Places -------------------------------------------------------------------------------------

  // With n2 points between the places of a butterfly, point i lies in row i / n2 and column i % n2; four
  // consecutive rows form a group, and each column of a group is one butterfly.
  function Row(i: nat, n2: nat): nat
    requires n2 > 0
  {
    i / n2
  }

  function Column(i: nat, n2: nat): (column: nat)
    requires n2 > 0
    ensures column < n2
  {
    i % n2
  }

  function Place(row: nat, column: nat, n2: nat): nat { row * n2 + column }

  lemma PlaceOf(i: nat, n2: nat)
    requires n2 > 0
    ensures Place(Row(i, n2), Column(i, n2), n2) == i
  {}

  lemma RowColumn(row: nat, column: nat, n2: nat)
    requires column < n2
    ensures Row(Place(row, column, n2), n2) == row && Column(Place(row, column, n2), n2) == column
  {
    var i := Place(row, column, n2);
    var d := i / n2 - row;
    assert i == (i / n2) * n2 + i % n2;
    assert d * n2 == column - i % n2;
    AtLeastOne(d, n2);
  }

  // The rows below `rows` hold exactly the points below rows * n2.
  lemma RowBelow(i: nat, rows: nat, n2: nat)
    requires n2 > 0
    ensures Row(i, n2) < rows <==> i < rows * n2
  {
    hide Row, Column;
    PlaceOf(i, n2);
    var row := Row(i, n2);
    NextMultiple(row, n2);
    if row < rows {
      Monotone(row + 1, rows, n2);
    } else {
      Monotone(rows, row, n2);
    }
  }

  lemma Monotone(x: nat, y: nat, n: nat)
    requires x <= y
    ensures x * n <= y * n
  {}

  // The four places of the butterfly in a group and column, in order and below the end.
  lemma FourPlaces(group: nat, column: nat, groups: nat, n2: nat)
    requires column < n2 && group < groups
    ensures Place(4 * group + 1, column, n2) == Place(4 * group, column, n2) + n2
    ensures Place(4 * group + 2, column, n2) == Place(4 * group + 1, column, n2) + n2
    ensures Place(4 * group + 3, column, n2) == Place(4 * group + 2, column, n2) + n2
    ensures Place(4 * group + 3, column, n2) < 4 * groups * n2
  {
    RowColumn(4 * group + 3, column, n2);
    RowBelow(Place(4 * group + 3, column, n2), 4 * groups, n2);
  }

  // The butterflies of a pass share the points out among themselves: every point belongs to exactly one
  // column of one group, at exactly one of its four places.
  lemma {:induction false} ButterfliesPartition(i: nat, groups: nat, n2: nat)
    requires n2 > 0 && i < 4 * groups * n2
    ensures var group, k, column := Row(i, n2) / 4, Row(i, n2) % 4, Column(i, n2);
            group < groups && i == Place(4 * group + k, column, n2)
    ensures forall row: nat, column: nat ::
              column < n2 && i == Place(row, column, n2) ==> row == Row(i, n2) && column == Column(i, n2)
  {
    PlaceOf(i, n2);
    RowBelow(i, 4 * groups, n2);
    forall row: nat, column: nat | column < n2 && i == Place(row, column, n2)
      ensures row == Row(i, n2) && column == Column(i, n2)
    {
      RowColumn(row, column, n2);
    }
  }

  // ----- One pass out of place ------------------------------------------------------------------------

  datatype Pass = Pass(stage: Stage, inverse: bool, groups: nat, n2: nat, coef: seq<Complex>, modifier: nat)

  // The twiddle table is long enough for the last column of the pass.
  predicate PassOk(p: Pass) {
    p.n2 > 0 && p.groups > 0 && (p.stage.Last? || 3 * ((p.n2 - 1) * p.modifier) < |p.coef|)
  }

  function Length(p: Pass): nat { 4 * p.groups * p.n2 }

  function TwiddlesAt(p: Pass, column: nat): Twiddles
    requires PassOk(p) && column < p.n2
  {
    if p.stage.Last? then Twiddles(Complex(0, 0), Complex(0, 0), Complex(0, 0)) else
    var ia := column * p.modifier;
    TableIndex(p, column);
    Twiddles(p.coef[ia], p.coef[2 * ia], p.coef[3 * ia])
  }

  lemma TableIndex(p: Pass, column: nat)
    requires PassOk(p) && column < p.n2 && !p.stage.Last?
    ensures 3 * (column * p.modifier) < |p.coef|
  {
    assert column * p.modifier <= (p.n2 - 1) * p.modifier;
  }

  function QuadAt(p: Pass, s: seq<Complex>, group: nat, column: nat): Quad
    requires PassOk(p) && |s| == Length(p) && group < p.groups && column < p.n2
  {
    FourPlaces(group, column, p.groups, p.n2);
    Take(s, Place(4 * group, column, p.n2), Place(4 * group + 1, column, p.n2),
         Place(4 * group + 2, column, p.n2), Place(4 * group + 3, column, p.n2))
  }

  function Pick(q: Quad, k: nat): Complex {
    if k == 0 then q.p0 else if k == 1 then q.p1 else if k == 2 then q.p2 else q.p3
  }

  // The result of the pass at one point depends on the four points of its butterfly alone.
  function PassAt(p: Pass, s: seq<Complex>, i: nat): Complex
    requires PassOk(p) && |s| == Length(p) && i < |s|
  {
    ButterfliesPartition(i, p.groups, p.n2);
    var group, column := Row(i, p.n2) / 4, Column(i, p.n2);
    Pick(Butterfly(p.stage, p.inverse, QuadAt(p, s, group, column), TwiddlesAt(p, column)), Row(i, p.n2) % 4)
  }

  function PassOut(p: Pass, s: seq<Complex>): (out: seq<Complex>)
    requires PassOk(p) && |s| == Length(p)
    ensures |out| == |s|
  {
    seq(|s|, i requires 0 <= i < |s| => PassAt(p, s, i))
  }

  // ----- One pass in place ------------------------------------------------------------------------------

  // The butterflies before (column, group) are done, column by column.
  predicate IsDone(i: nat, n2: nat, column: nat, group: nat)
    requires n2 > 0
  {
    Column(i, n2) < column || (Column(i, n2) == column && Row(i, n2) / 4 < group)
  }

  ghost predicate Progress(p: Pass, before: seq<Complex>, now: seq<Complex>, column: nat, group: nat)
    requires PassOk(p) && |before| == Length(p)
  {
    |now| == |before| &&
    forall i :: 0 <= i < |now| ==>
      now[i] == if IsDone(i, p.n2, column, group) then PassAt(p, before, i) else before[i]
  }

  lemma ProgressStarts(p: Pass, before: seq<Complex>)
    requires PassOk(p) && |before| == Length(p)
    ensures Progress(p, before, before, 0, 0)
  {
    hide PassAt;
  }

  // A finished column leads to the next, the last to the pass out of place.
  lemma ProgressColumn(p: Pass, before: seq<Complex>, now: seq<Complex>, column: nat)
    requires PassOk(p) && |before| == Length(p) && Progress(p, before, now, column, p.groups)
    ensures Progress(p, before, now, column + 1, 0)
  {
    hide PassAt, Row, Column;
    forall i: nat | i < |now| ensures IsDone(i, p.n2, column + 1, 0) == IsDone(i, p.n2, column, p.groups) {
      ButterfliesPartition(i, p.groups, p.n2);
    }
  }

  lemma ProgressEnds(p: Pass, before: seq<Complex>, now: seq<Complex>)
    requires PassOk(p) && |before| == Length(p) && Progress(p, before, now, p.n2, 0)
    ensures now == PassOut(p, before)
  {
    hide PassAt;
  }

  lemma UndoneQuad(p: Pass, before: seq<Complex>, now: seq<Complex>, column: nat, group: nat)
    requires PassOk(p) && |before| == Length(p) && Progress(p, before, now, column, group)
    requires group < p.groups && column < p.n2
    ensures QuadAt(p, now, group, column) == QuadAt(p, before, group, column)
  {
    hide PassAt, Row, Column, Place;
    FourPlaces(group, column, p.groups, p.n2);
    RowColumn(4 * group, column, p.n2);
    RowColumn(4 * group + 1, column, p.n2);
    RowColumn(4 * group + 2, column, p.n2);
    RowColumn(4 * group + 3, column, p.n2);
  }

  // One butterfly in place brings the pass one group further.
  lemma {:induction false} ProgressStep(p: Pass, before: seq<Complex>, now: seq<Complex>, next: seq<Complex>,
                                        column: nat, group: nat,
                     i0: nat, i1: nat, i2: nat, i3: nat)
    requires PassOk(p) && |before| == Length(p) && Progress(p, before, now, column, group)
    requires group < p.groups && column < p.n2
    requires i0 == Place(4 * group, column, p.n2) && i1 == i0 + p.n2 && i2 == i1 + p.n2 && i3 == i2 + p.n2 && i3 < |now|
    requires next == Put(now, i0, i1, i2, i3,
                         Butterfly(p.stage, p.inverse, Take(now, i0, i1, i2, i3), TwiddlesAt(p, column)))
    ensures Progress(p, before, next, column, group + 1)
  {
    UndoneQuad(p, before, now, column, group);
    FourPlaces(group, column, p.groups, p.n2);
    forall i: nat | i < |next|
      ensures next[i] == if IsDone(i, p.n2, column, group + 1) then PassAt(p, before, i) else before[i]
    {
      hide PassAt, Row, Column, Place, Butterfly, TwiddlesAt, QuadAt;
      PointStep(p, before, now, next, column, group, i0, i1, i2, i3, i);
    }
  }

  lemma PointStep(p: Pass, before: seq<Complex>, now: seq<Complex>, next: seq<Complex>, column: nat, group: nat,
                  i0: nat, i1: nat, i2: nat, i3: nat, i: nat)
    requires PassOk(p) && |before| == Length(p) && Progress(p, before, now, column, group)
    requires group < p.groups && column < p.n2
    requires i0 == Place(4 * group, column, p.n2) && i1 == Place(4 * group + 1, column, p.n2)
    requires i2 == Place(4 * group + 2, column, p.n2) && i3 == Place(4 * group + 3, column, p.n2)
    requires Places(|now|, i0, i1, i2, i3) && i < |now|
    requires next == Put(now, i0, i1, i2, i3,
                         Butterfly(p.stage, p.inverse, QuadAt(p, before, group, column), TwiddlesAt(p, column)))
    ensures next[i] == if IsDone(i, p.n2, column, group + 1) then PassAt(p, before, i) else before[i]
  {
    ButterfliesPartition(i, p.groups, p.n2);
    PlaceOf(i, p.n2);
    RowColumn(4 * group, column, p.n2);
    RowColumn(4 * group + 1, column, p.n2);
    RowColumn(4 * group + 2, column, p.n2);
    RowColumn(4 * group + 3, column, p.n2);
    hide Row, Column, Place, Butterfly, TwiddlesAt, QuadAt;
    if Column(i, p.n2) == column && Row(i, p.n2) / 4 == group {
      assert i == Place(Row(i, p.n2), column, p.n2);
    }
  }

  // ----- Passes over part of the buffer -----------------------------------------------------------------

  lemma PutWithin(s: seq<Complex>, b: nat, length: nat, i0: nat, i1: nat, i2: nat, i3: nat, q: Quad)
    requires b + length <= |s| && Places(length, i0, i1, i2, i3)
    ensures Take(s, b + i0, b + i1, b + i2, b + i3) == Take(s[b..b + length], i0, i1, i2, i3)
    ensures var after := Put(s, b + i0, b + i1, b + i2, b + i3, q);
            && after[b..b + length] == Put(s[b..b + length], i0, i1, i2, i3, q)
            && after[..b] == s[..b] && after[b + length..] == s[b + length..]
  {}

  // Nothing but the given stretch of the buffer has changed.
  ghost predicate Outside(before: seq<Complex>, now: seq<Complex>, b: nat, length: nat) {
    |now| == |before| && b + length <= |now| && now[..b] == before[..b] && now[b + length..] == before[b + length..]
  }

  // One butterfly within a stretch of the buffer brings its pass one group further.
  lemma StepIs(was: seq<Complex>, now: seq<Complex>, b: nat, p: Pass, column: nat, group: nat, w: Twiddles,
               i0: nat, i1: nat, i2: nat, i3: nat, before: seq<Complex>)
    requires PassOk(p) && !p.stage.Last? && |before| == Length(p) && group < p.groups && column < p.n2
    requires b + Length(p) <= |was| && Progress(p, before, was[b..b + Length(p)], column, group)
    requires w == TwiddlesAt(p, column)
    requires i0 == b + Place(4 * group, column, p.n2) && i1 == i0 + p.n2 && i2 == i1 + p.n2 && i3 == i2 + p.n2
    requires Places(|was|, i0, i1, i2, i3)
    requires now == Put(was, i0, i1, i2, i3, Twiddled(p.stage, p.inverse, Take(was, i0, i1, i2, i3), w))
    ensures Outside(was, now, b, Length(p))
    ensures Progress(p, before, now[b..b + Length(p)], column, group + 1)
  {
    hide Progress, TwiddlesAt, Twiddled, Take, Put, Place, Row, Column, PassOk;
    var length, j0, j1, j2, j3 := Length(p), i0 - b, i1 - b, i2 - b, i3 - b;
    FourPlaces(group, column, p.groups, p.n2);
    PutWithin(was, b, length, j0, j1, j2, j3, Twiddled(p.stage, p.inverse, Take(was, i0, i1, i2, i3), w));
    ProgressStep(p, before, was[b..b + length], now[b..b + length], column, group, j0, j1, j2, j3);
  }

  // Its four places are in the buffer.
  lemma StepPlaces(size: nat, b: nat, p: Pass, column: nat, group: nat, i0: nat, i1: nat, i2: nat, i3: nat)
    requires PassOk(p) && group < p.groups && column < p.n2 && b + Length(p) <= size
    requires i0 == b + Place(4 * group, column, p.n2) && i1 == i0 + p.n2 && i2 == i1 + p.n2 && i3 == i2 + p.n2
    ensures Places(size, i0, i1, i2, i3)
  {
    hide Place, Row, Column;
    FourPlaces(group, column, p.groups, p.n2);
  }

  // One butterfly of a pass over length points from b on.
  method Step(a: array<Complex>, ghost b: nat, ghost p: Pass, ghost column: nat, ghost group: nat,
              stage: Stage, inverse: bool,
              w: Twiddles, i0: nat, i1: nat, i2: nat, i3: nat, ghost before: seq<Complex>)
    requires PassOk(p) && !p.stage.Last? && p.stage == stage && p.inverse == inverse
    requires |before| == Length(p) && group < p.groups && column < p.n2
    requires b + Length(p) <= a.Length && Progress(p, before, a[b..b + Length(p)], column, group)
    requires w == TwiddlesAt(p, column)
    requires i0 == b + Place(4 * group, column, p.n2) && i1 == i0 + p.n2 && i2 == i1 + p.n2 && i3 == i2 + p.n2
    modifies a
    ensures Progress(p, before, a[b..b + Length(p)], column, group + 1)
    ensures Outside(old(a[..]), a[..], b, Length(p))
  {
    hide Progress, TwiddlesAt, Twiddled, Take, Put, Place, PassOk, Outside;
    ghost var was, length := a[..], Length(p);
    assert was[b..b + length] == a[b..b + length];
    StepPlaces(a.Length, b, p, column, group, i0, i1, i2, i3);
    TwiddledInPlace(a, i0, i1, i2, i3, stage, inverse, w);
    StepIs(was, a[..], b, p, column, group, w, i0, i1, i2, i3, before);
    assert a[..][b..b + length] == a[b..b + length];
  }

  // The same with pointers that walk on by a stride.
  method StepWalking(a: array<Complex>, ghost b: nat, ghost p: Pass, ghost column: nat, ghost group: nat, stage: Stage,
                     inverse: bool, w: Twiddles, i0: nat, i1: nat, i2: nat, i3: nat, stride: nat,
                     ghost before: seq<Complex>)
    returns (si0: nat, si1: nat, si2: nat, si3: nat)
    requires PassOk(p) && !p.stage.Last? && p.stage == stage && p.inverse == inverse
    requires |before| == Length(p) && group < p.groups && column < p.n2
    requires b + Length(p) <= a.Length && Progress(p, before, a[b..b + Length(p)], column, group)
    requires w == TwiddlesAt(p, column)
    requires i0 == b + Place(4 * group, column, p.n2) && i1 == i0 + p.n2 && i2 == i1 + p.n2 && i3 == i2 + p.n2
    modifies a
    ensures Progress(p, before, a[b..b + Length(p)], column, group + 1)
    ensures Outside(old(a[..]), a[..], b, Length(p))
    ensures si0 == i0 + stride && si1 == i1 + stride && si2 == i2 + stride && si3 == i3 + stride
  {
    hide Progress, TwiddlesAt, Twiddled, Take, Put, Place, PassOk, Outside;
    ghost var was, length := a[..], Length(p);
    assert was[b..b + length] == a[b..b + length];
    StepPlaces(a.Length, b, p, column, group, i0, i1, i2, i3);
    si0, si1, si2, si3 := TwiddledWalking(a, i0, i1, i2, i3, stride, stage, inverse, w);
    StepIs(was, a[..], b, p, column, group, w, i0, i1, i2, i3, before);
    assert a[..][b..b + length] == a[b..b + length];
  }

  // The first stage with computed indices: one group, every column.
  method FirstStageIndex(a: array<Complex>, b: nat, length: nat, coef: seq<Complex>, modifier: nat, inverse: bool)
    requires b + length <= a.Length && length % 4 == 0 && length > 0
    requires PassOk(Pass(First, inverse, 1, length / 4, coef, modifier))
    modifies a
    ensures a[b..b + length] == PassOut(Pass(First, inverse, 1, length / 4, coef, modifier), old(a[b..b + length]))
    ensures Outside(old(a[..]), a[..], b, length)
  {
    hide Progress, TwiddlesAt, PassOut;
    var n2 := length / 4;
    ghost var p, before := Pass(First, inverse, 1, n2, coef, modifier), a[b..b + length];
    ProgressStarts(p, before);
    var i0, ia1, j := 0, 0, n2;
    while j > 0
      invariant 0 <= j <= n2 && i0 == n2 - j && ia1 == i0 * modifier
      invariant Progress(p, before, a[b..b + length], i0, 0) && Outside(old(a[..]), a[..], b, length)
    {
      var i1 := i0 + n2;
      var i2 := i1 + n2;
      var i3 := i2 + n2;
      TableIndex(p, i0);
      var w := Twiddles(coef[ia1], coef[2 * ia1], coef[3 * ia1]);
      TwiddlesAre(p, i0, ia1, w);
      FirstPlace(i0, n2);
      Step(a, b, p, i0, 0, First, inverse, w, b + i0, b + i1, b + i2, b + i3, before);
      ProgressColumn(p, before, a[b..b + length], i0);
      NextMultiple(i0, modifier);
      ia1 := ia1 + modifier;
      i0 := i0 + 1;
      j := j - 1;
    }
    ProgressEnds(p, before, a[b..b + length]);
  }

  lemma TwiddlesAre(p: Pass, column: nat, ia: nat, w: Twiddles)
    requires PassOk(p) && !p.stage.Last? && column < p.n2 && ia == column * p.modifier && 3 * ia < |p.coef|
    requires w == Twiddles(p.coef[ia], p.coef[2 * ia], p.coef[3 * ia])
    ensures w == TwiddlesAt(p, column)
  {}

  lemma FirstPlace(column: nat, n2: nat)
    ensures Place(0, column, n2) == column
  {}

  lemma NextMultiple(i: nat, m: nat)
    ensures (i + 1) * m == i * m + m
  {}

  // The first stage with four pointers that walk through the quarters.
  method FirstStagePointer(a: array<Complex>, b: nat, length: nat, coef: seq<Complex>, modifier: nat, inverse: bool)
    requires b + length <= a.Length && length % 4 == 0 && length > 0
    requires PassOk(Pass(First, inverse, 1, length / 4, coef, modifier))
    modifies a
    ensures a[b..b + length] == PassOut(Pass(First, inverse, 1, length / 4, coef, modifier), old(a[b..b + length]))
    ensures Outside(old(a[..]), a[..], b, length)
  {
    hide Progress, TwiddlesAt, PassOut;
    var n2 := length / 4;
    ghost var p, before, column := Pass(First, inverse, 1, n2, coef, modifier), a[b..b + length], 0;
    ProgressStarts(p, before);
    var ia1, j := 0, n2;
    var si0 := b;
    var si1 := si0 + n2;
    var si2 := si1 + n2;
    var si3 := si2 + n2;
    while j > 0
      invariant 0 <= j <= n2 && column == n2 - j && ia1 == column * modifier
      invariant si0 == b + column && si1 == si0 + n2 && si2 == si1 + n2 && si3 == si2 + n2
      invariant Progress(p, before, a[b..b + length], column, 0) && Outside(old(a[..]), a[..], b, length)
    {
      TableIndex(p, column);
      var w := Twiddles(coef[ia1], coef[2 * ia1], coef[3 * ia1]);
      TwiddlesAre(p, column, ia1, w);
      FirstPlace(column, n2);
      si0, si1, si2, si3 := StepWalking(a, b, p, column, 0, First, inverse, w, si0, si1, si2, si3, 1, before);
      ProgressColumn(p, before, a[b..b + length], column);
      NextMultiple(column, modifier);
      ia1 := ia1 + modifier;
      column := column + 1;
      j := j - 1;
    }
    ProgressEnds(p, before, a[b..b + length]);
  }

  // A middle stage with computed indices: for each column all groups, n1 = 4 * n2 points apart.
  method MiddleStageIndex(a: array<Complex>, b: nat, length: nat, n2: nat, coef: seq<Complex>, modifier: nat,
                          inverse: bool, ghost groups: nat)
    requires length == 4 * groups * n2 && b + length <= a.Length
    requires PassOk(Pass(Middle, inverse, groups, n2, coef, modifier))
    modifies a
    ensures a[b..b + length] == PassOut(Pass(Middle, inverse, groups, n2, coef, modifier), old(a[b..b + length]))
    ensures Outside(old(a[..]), a[..], b, length)
  {
    hide Progress, TwiddlesAt, PassOut;
    var n1 := 4 * n2;
    ghost var p, before := Pass(Middle, inverse, groups, n2, coef, modifier), a[b..b + length];
    ProgressStarts(p, before);
    var ia1, j := 0, 0;
    while j <= n2 - 1
      invariant 0 <= j <= n2 && ia1 == j * modifier
      invariant Progress(p, before, a[b..b + length], j, 0) && Outside(old(a[..]), a[..], b, length)
    {
      TableIndex(p, j);
      var w := Twiddles(coef[ia1], coef[2 * ia1], coef[3 * ia1]);
      TwiddlesAre(p, j, ia1, w);
      NextMultiple(j, modifier);
      ia1 := ia1 + modifier;
      var i0 := j;
      ghost var group := 0;
      FirstPlace(j, n2);
      while i0 < length
        invariant group <= groups && i0 == Place(4 * group, j, n2)
        invariant Progress(p, before, a[b..b + length], j, group) && Outside(old(a[..]), a[..], b, length)
        decreases groups - group
      {
        GroupInRange(i0, group, j, groups, n2);
        var i1 := i0 + n2;
        var i2 := i1 + n2;
        var i3 := i2 + n2;
        Step(a, b, p, j, group, Middle, inverse, w, b + i0, b + i1, b + i2, b + i3, before);
        NextGroup(group, j, n2);
        i0 := i0 + n1;
        group := group + 1;
      }
      GroupInRange(i0, group, j, groups, n2);
      ProgressColumn(p, before, a[b..b + length], j);
      j := j + 1;
    }
    ProgressEnds(p, before, a[b..b + length]);
  }

  lemma GroupInRange(i0: nat, group: nat, column: nat, groups: nat, n2: nat)
    requires column < n2 && i0 == Place(4 * group, column, n2)
    ensures i0 < 4 * groups * n2 <==> group < groups
  {
    RowColumn(4 * group, column, n2);
    RowBelow(i0, 4 * groups, n2);
  }

  lemma NextGroup(group: nat, column: nat, n2: nat)
    ensures Place(4 * (group + 1), column, n2) == Place(4 * group, column, n2) + 4 * n2
  {}

  // A middle stage with four pointers that step over the groups.
  method MiddleStagePointer(a: array<Complex>, b: nat, length: nat, n2: nat, coef: seq<Complex>, modifier: nat,
                            inverse: bool, ghost groups: nat)
    requires length == 4 * groups * n2 && b + length <= a.Length
    requires PassOk(Pass(Middle, inverse, groups, n2, coef, modifier))
    modifies a
    ensures a[b..b + length] == PassOut(Pass(Middle, inverse, groups, n2, coef, modifier), old(a[b..b + length]))
    ensures Outside(old(a[..]), a[..], b, length)
  {
    hide Progress, TwiddlesAt, PassOut;
    var n1 := 4 * n2;
    ghost var p, before := Pass(Middle, inverse, groups, n2, coef, modifier), a[b..b + length];
    ProgressStarts(p, before);
    var ia1, j := 0, 0;
    while j <= n2 - 1
      invariant 0 <= j <= n2 && ia1 == j * modifier
      invariant Progress(p, before, a[b..b + length], j, 0) && Outside(old(a[..]), a[..], b, length)
    {
      TableIndex(p, j);
      var w := Twiddles(coef[ia1], coef[2 * ia1], coef[3 * ia1]);
      TwiddlesAre(p, j, ia1, w);
      NextMultiple(j, modifier);
      ia1 := ia1 + modifier;
      var i0 := j;
      var si0 := b + j;
      var si1 := si0 + n2;
      var si2 := si1 + n2;
      var si3 := si2 + n2;
      ghost var group := 0;
      FirstPlace(j, n2);
      while i0 < length
        invariant group <= groups && i0 == Place(4 * group, j, n2)
        invariant si0 == b + i0 && si1 == si0 + n2 && si2 == si1 + n2 && si3 == si2 + n2
        invariant Progress(p, before, a[b..b + length], j, group) && Outside(old(a[..]), a[..], b, length)
        decreases groups - group
      {
        GroupInRange(i0, group, j, groups, n2);
        si0, si1, si2, si3 := StepWalking(a, b, p, j, group, Middle, inverse, w, si0, si1, si2, si3, n1, before);
        NextGroup(group, j, n2);
        i0 := i0 + n1;
        group := group + 1;
      }
      GroupInRange(i0, group, j, groups, n2);
      ProgressColumn(p, before, a[b..b + length], j);
      j := j + 1;
    }
    ProgressEnds(p, before, a[b..b + length]);
  }

  // The last stage: one pointer over groups of four neighbouring points.
  method LastStage(a: array<Complex>, b: nat, length: nat, inverse: bool)
    requires b + length <= a.Length && length % 4 == 0 && length > 0
    modifies a
    ensures a[b..b + length] == PassOut(Pass(Last, inverse, length / 4, 1, [], 0), old(a[b..b + length]))
    ensures Outside(old(a[..]), a[..], b, length)
  {
    hide Progress, TwiddlesAt, PassOut;
    ghost var p, before := Pass(Last, inverse, length / 4, 1, [], 0), a[b..b + length];
    ProgressStarts(p, before);
    var j, ptr1 := length / 4, b;
    ghost var group := 0;
    while j > 0
      invariant 0 <= j <= length / 4 && group == length / 4 - j && ptr1 == b + 4 * group
      invariant Progress(p, before, a[b..b + length], 0, group) && Outside(old(a[..]), a[..], b, length)
    {
      LastStep(a, b, p, group, ptr1, inverse, before);
      ptr1 := ptr1 + 4;
      group := group + 1;
      j := j - 1;
    }
    ProgressColumn(p, before, a[b..b + length], 0);
    ProgressEnds(p, before, a[b..b + length]);
  }

  method LastStep(a: array<Complex>, ghost b: nat, ghost p: Pass, ghost group: nat, ptr1: nat, inverse: bool,
                  ghost before: seq<Complex>)
    requires PassOk(p) && p.stage.Last? && p.n2 == 1 && p.inverse == inverse && |before| == Length(p) &&
             group < p.groups
    requires b + Length(p) <= a.Length && Progress(p, before, a[b..b + Length(p)], 0, group) && ptr1 == b + 4 * group
    modifies a
    ensures Progress(p, before, a[b..b + Length(p)], 0, group + 1)
    ensures Outside(old(a[..]), a[..], b, Length(p))
  {
    hide Progress, Untwiddled, Take, Put, Row, Column;
    ghost var was, length, i := a[..], Length(p), 4 * group;
    PutWithin(was, b, length, i, i + 1, i + 2, i + 3,
              Untwiddled(inverse, Take(was, ptr1, ptr1 + 1, ptr1 + 2, ptr1 + 3)));
    assert was[b..b + length] == a[b..b + length];
    UntwiddledInPlace(a, ptr1, inverse);
    ProgressStep(p, before, was[b..b + length], a[..][b..b + length], 0, group, i, i + 1, i + 2, i + 3);
    assert a[..][b..b + length] == a[b..b + length];
  }
}
