/** Cutting an image into units of work, and running them. */
module Spans {
  /** Where each checkpoint's span begins in a layer's uncompressed stream, and
      how long the stream is. */
  datatype Index = Index(offsets: seq<nat>, length: nat)

  /** Where a surviving file's contents sit in that stream. */
  datatype Body = Body(offset: nat, size: nat) {
    function End(): nat {
      offset + size
    }
  }

  /** A checkpoint begins inside the stream, and no later one before it. */
  predicate Begins(index: Index, c: nat)
    requires c < |index.offsets|
  {
    index.offsets[c] <= index.length && forall d | c <= d < |index.offsets| :: index.offsets[c] <= index.offsets[d]
  }

  predicate IsIndex(index: Index) {
    index.offsets != [] && index.offsets[0] == 0 && forall c | 0 <= c < |index.offsets| :: Begins(index, c)
  }

  predicate InStreamOrder(bodies: seq<Body>) {
    forall i, j | 0 <= i < j < |bodies| :: bodies[i].End() <= bodies[j].offset
  }

  /** No body begins at the stream's end or past it. */
  predicate BeginInside(index: Index, bodies: seq<Body>) {
    forall i | 0 <= i < |bodies| :: bodies[i].offset < index.length
  }

  function SpanEnd(index: Index, c: nat): nat {
    if c + 1 < |index.offsets| then index.offsets[c + 1] else index.length
  }

  // ------------------------------------------------------------ plan_units

  /** Inflate from a checkpoint and write the bodies of a range of files. */
  datatype Unit = Unit(checkpoint: nat, first: nat, end: nat)

  /** A unit's files, none of them another's, from a checkpoint at or before the
      first of them, each beginning inside that checkpoint's span. */
  predicate Cut(index: Index, bodies: seq<Body>, unit: Unit) {
    && unit.checkpoint < |index.offsets| && unit.first < unit.end <= |bodies|
    && index.offsets[unit.checkpoint] <= bodies[unit.first].offset
    && forall i | unit.first <= i < unit.end :: bodies[i].offset < SpanEnd(index, unit.checkpoint)
  }

  /** The spans a unit inflates: from its checkpoint to the one where the last
      of its bodies ends. */
  predicate Inflates(index: Index, bodies: seq<Body>, unit: Unit, c: int)
    requires 0 < unit.end <= |bodies|
  {
    unit.checkpoint <= c < |index.offsets| && index.offsets[c] < bodies[unit.end - 1].End()
  }

  /** One unit after another: the files go on where the last stopped, from a
      later checkpoint, and no earlier than the last span that one inflated. */
  ghost predicate Follows(index: Index, bodies: seq<Body>, unit: Unit, next: Unit)
    requires 0 < unit.end <= |bodies|
  {
    && next.first == unit.end && unit.checkpoint < next.checkpoint
    && forall c :: Inflates(index, bodies, unit, c) ==> c <= next.checkpoint
  }

  /** Units that cover the first `at` files, each exactly once, in order. */
  ghost predicate Cuts(index: Index, bodies: seq<Body>, units: seq<Unit>, at: nat) {
    && (forall k | 0 <= k < |units| :: Cut(index, bodies, units[k]))
    && (forall k | 0 <= k < |units| - 1 :: Follows(index, bodies, units[k], units[k + 1]))
    && (if units == [] then at == 0 else units[0].first == 0 && units[|units| - 1].end == at)
  }

  /** What a unit leaves to the next: files past its window, and checkpoints at
      or past the last span it inflated. */
  ghost predicate Leaves(index: Index, bodies: seq<Body>, unit: Unit, at: nat, checkpoint: nat) {
    && 0 < unit.end <= |bodies| && unit.checkpoint <= checkpoint
    && (at < |bodies| ==> SpanEnd(index, unit.checkpoint) <= bodies[at].offset)
    && forall c :: Inflates(index, bodies, unit, c) ==> c <= checkpoint
  }

  /** Where the next unit may start once the last has been cut. */
  ghost predicate Resumes(index: Index, bodies: seq<Body>, units: seq<Unit>, at: nat, checkpoint: nat) {
    && checkpoint < |index.offsets|
    && (at < |bodies| ==> index.offsets[checkpoint] <= bodies[at].offset)
    && (units != [] ==> Leaves(index, bodies, units[|units| - 1], at, checkpoint))
  }

  /** The last checkpoint at or before `offset`, from one that is. */
  function AdvancedTo(index: Index, from: nat, offset: nat): (checkpoint: nat)
    requires from < |index.offsets|
    ensures from <= checkpoint < |index.offsets|
    ensures index.offsets[from] <= offset ==> index.offsets[checkpoint] <= offset
    ensures checkpoint + 1 < |index.offsets| ==> offset < index.offsets[checkpoint + 1]
    decreases |index.offsets| - from
  {
    if from + 1 < |index.offsets| && index.offsets[from + 1] <= offset
    then AdvancedTo(index, from + 1, offset)
    else from
  }

  method AdvanceTo(index: Index, from: nat, offset: nat) returns (checkpoint: nat)
    requires from < |index.offsets|
    ensures checkpoint == AdvancedTo(index, from, offset)
  {
    checkpoint := from;
    while checkpoint + 1 < |index.offsets| && index.offsets[checkpoint + 1] <= offset
      invariant from <= checkpoint < |index.offsets|
      invariant AdvancedTo(index, checkpoint, offset) == AdvancedTo(index, from, offset)
    {
      checkpoint := checkpoint + 1;
    }
  }

  /** The first checkpoint whose span reaches `end`, or the last there is. */
  function AdvancedPast(index: Index, from: nat, end: nat): (checkpoint: nat)
    requires from < |index.offsets|
    ensures from <= checkpoint < |index.offsets|
    ensures checkpoint + 1 == |index.offsets| || end <= SpanEnd(index, checkpoint)
    ensures checkpoint == from || index.offsets[checkpoint] < end
    decreases |index.offsets| - from
  {
    if from + 1 < |index.offsets| && SpanEnd(index, from) < end then AdvancedPast(index, from + 1, end) else from
  }

  method AdvancePast(index: Index, from: nat, end: nat) returns (checkpoint: nat)
    requires from < |index.offsets|
    ensures checkpoint == AdvancedPast(index, from, end)
  {
    checkpoint := from;
    while checkpoint + 1 < |index.offsets| && SpanEnd(index, checkpoint) < end
      invariant from <= checkpoint < |index.offsets|
      invariant AdvancedPast(index, checkpoint, end) == AdvancedPast(index, from, end)
    {
      checkpoint := checkpoint + 1;
    }
  }

  /** The first file from `first` on that does not begin before `limit`. */
  function Absorbed(bodies: seq<Body>, first: nat, limit: nat): (at: nat)
    requires first <= |bodies|
    ensures first <= at <= |bodies| && (forall i | first <= i < at :: bodies[i].offset < limit)
    ensures at < |bodies| ==> limit <= bodies[at].offset
    decreases |bodies| - first
  {
    if first < |bodies| && bodies[first].offset < limit then Absorbed(bodies, first + 1, limit) else first
  }

  /** Where the last body taken ends, or the first one left. */
  function EndTaken(bodies: seq<Body>, first: nat, at: nat): nat
    requires first <= at <= |bodies| && first < |bodies|
  {
    bodies[if at > first then at - 1 else first].End()
  }

  method Absorb(bodies: seq<Body>, first: nat, limit: nat) returns (at: nat, end: nat)
    requires first < |bodies|
    ensures at == Absorbed(bodies, first, limit) && end == EndTaken(bodies, first, at)
  {
    at, end := first, bodies[first].End();
    while at < |bodies| && bodies[at].offset < limit
      invariant first <= at <= |bodies| && end == EndTaken(bodies, first, at)
      invariant Absorbed(bodies, at, limit) == Absorbed(bodies, first, limit)
    {
      end := bodies[at].End();
      at := at + 1;
    }
  }

  /** A unit from the last checkpoint at or before its first file, with every
      file that begins inside that checkpoint's span. */
  ghost predicate IsNext(index: Index, bodies: seq<Body>, from: nat, unit: Unit) {
    && from <= unit.checkpoint < |index.offsets| && unit.first <= unit.end <= |bodies| && unit.first < |bodies|
    && index.offsets[unit.checkpoint] <= bodies[unit.first].offset
    && (unit.checkpoint + 1 < |index.offsets| ==> bodies[unit.first].offset < index.offsets[unit.checkpoint + 1])
    && (forall i | unit.first <= i < unit.end :: bodies[i].offset < SpanEnd(index, unit.checkpoint))
    && (unit.end < |bodies| ==> SpanEnd(index, unit.checkpoint) <= bodies[unit.end].offset)
  }

  method PlanLayer(index: Index, bodies: seq<Body>) returns (units: seq<Unit>)
    requires IsIndex(index) && InStreamOrder(bodies) && BeginInside(index, bodies)
    ensures Cuts(index, bodies, units, |bodies|) && Turns(index, bodies, |units|).at == |bodies|
  {
    units := [];
    var at: nat, checkpoint: nat := 0, 0;
    while at < |bodies|
      invariant at <= |bodies| && checkpoint < |index.offsets|
      invariant Cuts(index, bodies, units, at) && Resumes(index, bodies, units, at, checkpoint)
      invariant Turns(index, bodies, |units|) == Cursor(at, checkpoint)
    {
      OneTurn(index, bodies, units, at, checkpoint);
      var first, end: nat := at, 0;
      checkpoint := AdvanceTo(index, checkpoint, bodies[first].offset);
      at, end := Absorb(bodies, first, SpanEnd(index, checkpoint));
      units := units + [Unit(checkpoint, first, at)];
      checkpoint := AdvancePast(index, checkpoint, end);
    }
  }

  function NextUnit(index: Index, bodies: seq<Body>, first: nat, from: nat): (unit: Unit)
    requires first < |bodies| && from < |index.offsets|
    ensures unit.checkpoint < |index.offsets| && unit.first <= unit.end <= |bodies|
  {
    var checkpoint := AdvancedTo(index, from, bodies[first].offset);
    Unit(checkpoint, first, Absorbed(bodies, first, SpanEnd(index, checkpoint)))
  }

  lemma NextUnitTakesAFile(index: Index, bodies: seq<Body>, first: nat, from: nat)
    requires BeginInside(index, bodies) && first < |bodies| && from < |index.offsets|
    ensures first < NextUnit(index, bodies, first, from).end
  {
    assert bodies[first].offset < SpanEnd(index, NextUnit(index, bodies, first, from).checkpoint);
  }

  /** What one turn of the loop adds. */
  lemma OneTurn(index: Index, bodies: seq<Body>, units: seq<Unit>, first: nat, from: nat)
    requires IsIndex(index) && InStreamOrder(bodies) && BeginInside(index, bodies) && first < |bodies|
    requires from < |index.offsets| && Cuts(index, bodies, units, first) && Resumes(index, bodies, units, first, from)
    ensures var unit := NextUnit(index, bodies, first, from);
            && first < unit.end && Cuts(index, bodies, units + [unit], unit.end)
            && Resumes(index, bodies, units + [unit], unit.end,
                       AdvancedPast(index, unit.checkpoint, EndTaken(bodies, first, unit.end)))
  {
    var unit := NextUnit(index, bodies, first, from);
    NextUnitTakesAFile(index, bodies, first, from);
    OneMoreUnit(index, bodies, units, from, unit, AdvancedPast(index, unit.checkpoint, bodies[unit.end - 1].End()));
  }

  lemma NextIsCut(index: Index, bodies: seq<Body>, from: nat, unit: Unit)
    requires BeginInside(index, bodies) && IsNext(index, bodies, from, unit)
    ensures Cut(index, bodies, unit)
  {
    assert bodies[unit.first].offset < SpanEnd(index, unit.checkpoint);
  }

  /** The checkpoint moved to is still at or before the next file. */
  lemma StillBefore(index: Index, bodies: seq<Body>, unit: Unit, checkpoint: nat)
    requires InStreamOrder(bodies) && Cut(index, bodies, unit) && unit.end < |bodies| && checkpoint < |index.offsets|
    requires checkpoint == unit.checkpoint || index.offsets[checkpoint] < bodies[unit.end - 1].End()
    ensures index.offsets[checkpoint] <= bodies[unit.end].offset
  {
    assert bodies[unit.end - 1].End() <= bodies[unit.end].offset;
    assert bodies[unit.first].offset <= bodies[unit.end].offset;
  }

  lemma OneMoreUnit(index: Index, bodies: seq<Body>, units: seq<Unit>, from: nat, unit: Unit, checkpoint: nat)
    requires IsIndex(index) && InStreamOrder(bodies) && BeginInside(index, bodies)
    requires Cuts(index, bodies, units, unit.first) && Resumes(index, bodies, units, unit.first, from)
    requires IsNext(index, bodies, from, unit) && unit.checkpoint <= checkpoint < |index.offsets|
    requires unit.end > 0 && var end := bodies[unit.end - 1].End();
             && (checkpoint + 1 == |index.offsets| || end <= SpanEnd(index, checkpoint))
             && (checkpoint == unit.checkpoint || index.offsets[checkpoint] < end)
    ensures unit.first < unit.end
    ensures Cuts(index, bodies, units + [unit], unit.end)
    ensures Resumes(index, bodies, units + [unit], unit.end, checkpoint)
  {
    NextIsCut(index, bodies, from, unit);
    UnitFollows(index, bodies, units, unit, from);
    if unit.end < |bodies| { StillBefore(index, bodies, unit, checkpoint); }
    UnitLeaves(index, bodies, unit, checkpoint);
  }

  /** Past where the last body ends, a unit inflates nothing. */
  lemma UnitLeaves(index: Index, bodies: seq<Body>, unit: Unit, checkpoint: nat)
    requires IsIndex(index) && Cut(index, bodies, unit) && unit.checkpoint <= checkpoint < |index.offsets|
    requires unit.end < |bodies| ==> SpanEnd(index, unit.checkpoint) <= bodies[unit.end].offset
    requires checkpoint + 1 == |index.offsets| || bodies[unit.end - 1].End() <= SpanEnd(index, checkpoint)
    ensures Leaves(index, bodies, unit, unit.end, checkpoint)
  {
    assert checkpoint + 1 < |index.offsets| ==> Begins(index, checkpoint + 1);
  }

  lemma UnitFollows(index: Index, bodies: seq<Body>, units: seq<Unit>, unit: Unit, from: nat)
    requires IsIndex(index) && Cut(index, bodies, unit) && Cuts(index, bodies, units, unit.first)
    requires Resumes(index, bodies, units, unit.first, from) && from <= unit.checkpoint
    requires SpanEnd(index, unit.checkpoint) > bodies[unit.first].offset
    ensures Cuts(index, bodies, units + [unit], unit.end)
  {
  }

  // ------------------------------------------------------------ what cutting is for

  lemma {:induction false} CheckpointsRise(index: Index, bodies: seq<Body>, units: seq<Unit>, at: nat, i: nat, j: nat)
    requires Cuts(index, bodies, units, at) && i < j < |units|
    ensures units[i].checkpoint < units[j].checkpoint && units[i].end <= units[j].first
    decreases j
  {
    assert Cut(index, bodies, units[j - 1]) && Follows(index, bodies, units[j - 1], units[j]);
    if i < j - 1 { CheckpointsRise(index, bodies, units, at, i, j - 1); }
  }

  /** Two units inflate one span only when one comes right after the other, so
      no span is inflated by three. */
  lemma OneSpanTwoUnits(index: Index, bodies: seq<Body>, units: seq<Unit>, at: nat, i: nat, j: nat, c: int)
    requires Cuts(index, bodies, units, at) && i < j < |units|
    requires Cut(index, bodies, units[i]) && Cut(index, bodies, units[j])
    requires Inflates(index, bodies, units[i], c) && Inflates(index, bodies, units[j], c)
    ensures j == i + 1 && c == units[j].checkpoint
  {
    assert Follows(index, bodies, units[i], units[i + 1]);
    if i + 1 < j { CheckpointsRise(index, bodies, units, at, i + 1, j); }
  }

  /** Every file is in one unit. */
  lemma {:induction false} EveryFileIsCut(index: Index, bodies: seq<Body>, units: seq<Unit>, at: nat, file: nat)
    returns (i: nat)
    requires Cuts(index, bodies, units, at) && file < at
    ensures i < |units| && units[i].first <= file < units[i].end
    ensures forall j | 0 <= j < |units| && units[j].first <= file < units[j].end :: j == i
  {
    i := |units| - 1;
    while file < units[i].first
      invariant i < |units| && file < units[i].end
    {
      assert i > 0;
      assert Follows(index, bodies, units[i - 1], units[i]);
      i := i - 1;
    }
    forall j | 0 <= j < |units| && units[j].first <= file < units[j].end ensures j == i {
      if j < i { CheckpointsRise(index, bodies, units, at, j, i); }
      if i < j { CheckpointsRise(index, bodies, units, at, i, j); }
    }
  }

  // ------------------------------------------------------------ when cutting ends

  /** How far the loop has come: the next file, and the checkpoint it is at. */
  datatype Cursor = Cursor(at: nat, checkpoint: nat)

  predicate IsCursor(index: Index, bodies: seq<Body>, c: Cursor) {
    c.at <= |bodies| && c.checkpoint < |index.offsets|
  }

  /** One turn of the loop, whether it takes a file or none. */
  function Turn(index: Index, bodies: seq<Body>, c: Cursor): (after: Cursor)
    requires IsCursor(index, bodies, c)
    ensures IsCursor(index, bodies, after) && c.at <= after.at
  {
    if c.at == |bodies| then c
    else
      var checkpoint := AdvancedTo(index, c.checkpoint, bodies[c.at].offset);
      var at := Absorbed(bodies, c.at, SpanEnd(index, checkpoint));
      Cursor(at, AdvancedPast(index, checkpoint, EndTaken(bodies, c.at, at)))
  }

  function Turns(index: Index, bodies: seq<Body>, n: nat): (c: Cursor)
    requires index.offsets != []
    ensures IsCursor(index, bodies, c)
  {
    if n == 0 then Cursor(0, 0) else Turn(index, bodies, Turns(index, bodies, n - 1))
  }

  lemma {:induction false} EachTurnTakesAFile(index: Index, bodies: seq<Body>, n: nat)
    requires IsIndex(index) && BeginInside(index, bodies)
    ensures Turns(index, bodies, n).at >= if n < |bodies| then n else |bodies|
  {
    if n > 0 {
      EachTurnTakesAFile(index, bodies, n - 1);
      var c := Turns(index, bodies, n - 1);
      if c.at < |bodies| {
        var checkpoint := AdvancedTo(index, c.checkpoint, bodies[c.at].offset);
        assert bodies[c.at].offset < SpanEnd(index, checkpoint);
      }
    }
  }

  lemma AbsorbedStops(bodies: seq<Body>, first: nat, limit: nat, file: nat)
    requires first <= file < |bodies| && limit <= bodies[file].offset
    ensures Absorbed(bodies, first, limit) <= file
  {
  }

  lemma TurnStops(index: Index, bodies: seq<Body>, c: Cursor, file: nat)
    requires IsIndex(index) && IsCursor(index, bodies, c) && c.at <= file < |bodies|
    requires index.length <= bodies[file].offset
    ensures Turn(index, bodies, c).at <= file
  {
    var checkpoint := AdvancedTo(index, c.checkpoint, bodies[c.at].offset);
    assert checkpoint + 1 < |index.offsets| ==> Begins(index, checkpoint + 1);
    AbsorbedStops(bodies, c.at, SpanEnd(index, checkpoint), file);
  }

  lemma {:induction false} NoTurnPasses(index: Index, bodies: seq<Body>, file: nat, n: nat)
    requires IsIndex(index) && file < |bodies| && index.length <= bodies[file].offset
    ensures Turns(index, bodies, n).at <= file
  {
    if n > 0 {
      NoTurnPasses(index, bodies, file, n - 1);
      var c := Turns(index, bodies, n - 1);
      assert Turns(index, bodies, n) == Turn(index, bodies, c);
      TurnStops(index, bodies, c, file);
    }
  }

  /** The loop comes to an end just when every body begins before the stream
      ends. One that does not, which can only be an empty file at the end of the
      stream or an index that is not the layer's, is never taken. */
  lemma CuttingEnds(index: Index, bodies: seq<Body>)
    requires IsIndex(index)
    ensures (exists n: nat :: Turns(index, bodies, n).at == |bodies|) <==> BeginInside(index, bodies)
  {
    if BeginInside(index, bodies) {
      EachTurnTakesAFile(index, bodies, |bodies|);
      assert Turns(index, bodies, |bodies|).at == |bodies|;
    } else {
      var file: nat :| file < |bodies| && index.length <= bodies[file].offset;
      forall n: nat ensures Turns(index, bodies, n).at != |bodies| {
        NoTurnPasses(index, bodies, file, n);
      }
    }
  }

  /** A layer whose one file is empty and whose stream ends where it begins. */
  lemma AnEmptyLastFileIsNeverTaken(n: nat)
    ensures IsIndex(Index([0], 512)) && InStreamOrder([Body(512, 0)])
    ensures Turns(Index([0], 512), [Body(512, 0)], n).at == 0
  {
    NoTurnPasses(Index([0], 512), [Body(512, 0)], 0, n);
  }
}
