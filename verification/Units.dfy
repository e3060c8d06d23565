/** Every layer's units together, and what running one writes. */
module Units {
  import opened Paths
  import opened Sorting
  import opened Spans

  /** A layer's index and its surviving files, and how long its blob is. */
  datatype Layer = Layer(index: Index, bodies: seq<Body>, blob: nat)

  /** What a worker takes from the queue: a unit, or a layer to check. */
  datatype Claim = Span(layer: nat, unit: Unit) | Digest(layer: nat)

  predicate CanBeCut(layer: Layer) {
    IsIndex(layer.index) && InStreamOrder(layer.bodies) && BeginInside(layer.index, layer.bodies)
  }

  ghost predicate IsCut(layer: Layer, units: seq<Unit>) {
    Cuts(layer.index, layer.bodies, units, |layer.bodies|)
  }

  /** Only a layer with files has its digest checked. */
  function ClaimsOf(l: nat, units: seq<Unit>): seq<Claim> {
    (if units == [] then [] else [Digest(l)]) + seq(|units|, k requires 0 <= k < |units| => Span(l, units[k]))
  }

  function Claims(cuts: seq<seq<Unit>>): seq<Claim> {
    if cuts == [] then [] else Claims(cuts[..|cuts| - 1]) + ClaimsOf(|cuts| - 1, cuts[|cuts| - 1])
  }

  /** How much of a layer a claim has to get through. */
  function Weight(layers: seq<Layer>, claim: Claim): int {
    if claim.layer >= |layers| then 0
    else
      var layer := layers[claim.layer];
      match claim
      case Digest(_) => layer.blob
      case Span(_, unit) =>
        if 0 < unit.end <= |layer.bodies| && unit.checkpoint < |layer.index.offsets|
        then layer.bodies[unit.end - 1].End() - layer.index.offsets[unit.checkpoint]
        else 0
  }

  predicate IsHeavier(layers: seq<Layer>, a: Claim, b: Claim) {
    Weight(layers, a) >= Weight(layers, b)
  }

  /** A unit ends no earlier than where inflating for it begins, so its weight is
      never less than nothing. */
  lemma UnitsWeighSomething(layers: seq<Layer>, l: nat, unit: Unit)
    requires l < |layers| && CanBeCut(layers[l]) && Cut(layers[l].index, layers[l].bodies, unit)
    ensures 0 < unit.end <= |layers[l].bodies| && unit.checkpoint < |layers[l].index.offsets|
    ensures 0 <= layers[l].bodies[unit.end - 1].End() - layers[l].index.offsets[unit.checkpoint]
              == Weight(layers, Span(l, unit))
  {
    if unit.first < unit.end - 1 {
      assert layers[l].bodies[unit.first].End() <= layers[l].bodies[unit.end - 1].offset;
    }
  }

  /** Every layer's claims, the heaviest first. */
  method PlanUnits(layers: seq<Layer>) returns (queue: seq<Claim>, cuts: seq<seq<Unit>>)
    requires forall l | 0 <= l < |layers| :: CanBeCut(layers[l])
    ensures |cuts| == |layers| && forall l | 0 <= l < |layers| :: IsCut(layers[l], cuts[l])
    ensures forall i, j | 0 <= i < j < |queue| :: Weight(layers, queue[i]) >= Weight(layers, queue[j])
    ensures IsQueueOf(layers, cuts, queue)
  {
    var claims: seq<Claim> := [];
    cuts := [];
    for l := 0 to |layers|
      invariant |cuts| == l && forall i | 0 <= i < l :: IsCut(layers[i], cuts[i])
      invariant claims == Claims(cuts)
    {
      var units := PlanLayer(layers[l].index, layers[l].bodies);
      var mine := ClaimLayer(layers[l], l, units);
      claims := claims + mine;
      var more := cuts + [units];
      assert more[..|more| - 1] == cuts;
      cuts := more;
    }
    queue := Sort(claims, (a, b) => IsHeavier(layers, a, b));
    SortSorts(claims, (a, b) => IsHeavier(layers, a, b));
    AreQueued(layers, cuts, queue);
  }

  method ClaimLayer(layer: Layer, l: nat, units: seq<Unit>) returns (mine: seq<Claim>)
    requires IsCut(layer, units)
    ensures mine == ClaimsOf(l, units)
  {
    mine := [];
    if layer.bodies != [] { mine := [Digest(l)]; }
    ghost var checks := mine;
    for k := 0 to |units|
      invariant mine == checks + seq(k, i requires 0 <= i < k => Span(l, units[i]))
    {
      mine := mine + [Span(l, units[k])];
    }
    FilesMakeUnits(layer, units);
  }

  /** There are units just where there are files. */
  lemma FilesMakeUnits(layer: Layer, units: seq<Unit>)
    requires IsCut(layer, units)
    ensures units == [] <==> layer.bodies == []
  {
    if units != [] { assert Cut(layer.index, layer.bodies, units[0]); }
  }

  // ------------------------------------------------------------ what is queued

  /** A layer's digest is due when it has files, and a unit when it was cut. */
  predicate IsDueFrom(layer: Layer, units: seq<Unit>, claim: Claim) {
    match claim
    case Digest(_) => layer.bodies != []
    case Span(_, unit) => unit in units
  }

  predicate IsDue(layers: seq<Layer>, cuts: seq<seq<Unit>>, claim: Claim) {
    var l := claim.layer;
    l < |layers| && l < |cuts| && IsDueFrom(layers[l], cuts[l], claim)
  }

  function SpansOf(l: nat, units: seq<Unit>): (spans: seq<Claim>)
    ensures |spans| == |units| && forall k | 0 <= k < |units| :: spans[k] == Span(l, units[k])
  {
    seq(|units|, k requires 0 <= k < |units| => Span(l, units[k]))
  }

  lemma {:induction false} SpansAreCounted(l: nat, units: seq<Unit>, claim: Claim)
    requires forall i, j | 0 <= i < j < |units| :: units[i] != units[j]
    ensures multiset(SpansOf(l, units))[claim] ==
              if claim.Span? && claim.layer == l && claim.unit in units then 1 else 0
  {
    if units == [] {
      assert SpansOf(l, units) == [];
    } else {
      var less, last := units[..|units| - 1], units[|units| - 1];
      SpansAreCounted(l, less, claim);
      assert SpansOf(l, units) == SpansOf(l, less) + [Span(l, last)];
      assert units == less + [last];
    }
  }

  lemma LayerIsCounted(layer: Layer, l: nat, units: seq<Unit>, claim: Claim)
    requires IsCut(layer, units)
    ensures multiset(ClaimsOf(l, units))[claim] == if claim.layer == l && IsDueFrom(layer, units, claim) then 1 else 0
  {
    FilesMakeUnits(layer, units);
    forall i, j | 0 <= i < j < |units| ensures units[i] != units[j] {
      CheckpointsRise(layer.index, layer.bodies, units, |layer.bodies|, i, j);
    }
    SpansAreCounted(l, units, claim);
    assert ClaimsOf(l, units) == (if units == [] then [] else [Digest(l)]) + SpansOf(l, units);
  }

  /** Each layer with files is checked once and each unit of it run once, and
      nothing else is queued. */
  lemma {:induction false} EachClaimOnce(layers: seq<Layer>, cuts: seq<seq<Unit>>, claim: Claim)
    requires |cuts| <= |layers| && forall l | 0 <= l < |cuts| :: IsCut(layers[l], cuts[l])
    ensures multiset(Claims(cuts))[claim] == if IsDue(layers, cuts, claim) then 1 else 0
    decreases |cuts|
  {
    if cuts != [] {
      var l := |cuts| - 1;
      EachClaimOnce(layers, cuts[..l], claim);
      LayerIsCounted(layers[l], l, cuts[l], claim);
      assert claim.layer < l ==> cuts[..l][claim.layer] == cuts[claim.layer];
      assert multiset(Claims(cuts)) == multiset(Claims(cuts[..l])) + multiset(ClaimsOf(l, cuts[l]));
    }
  }

  /** What is due is queued once, and nothing else. */
  ghost predicate IsQueueOf(layers: seq<Layer>, cuts: seq<seq<Unit>>, queue: seq<Claim>) {
    forall claim :: multiset(queue)[claim] == if IsDue(layers, cuts, claim) then 1 else 0
  }

  lemma AreQueued(layers: seq<Layer>, cuts: seq<seq<Unit>>, queue: seq<Claim>)
    requires |cuts| <= |layers| && forall l | 0 <= l < |cuts| :: IsCut(layers[l], cuts[l])
    requires multiset(queue) == multiset(Claims(cuts))
    ensures IsQueueOf(layers, cuts, queue)
  {
    forall claim ensures multiset(queue)[claim] == if IsDue(layers, cuts, claim) then 1 else 0 {
      EachClaimOnce(layers, cuts, claim);
    }
  }

  // ------------------------------------------------------------ run_span

  /** What inflating each checkpoint's span gives: its bytes, or an error. */
  datatype Inflated<T> = Inflated(bytes: seq<T>) | Broken

  /** A span that inflates gives its own bytes of the layer's stream. */
  ghost predicate Faithful<T>(index: Index, spans: seq<Inflated<T>>, stream: seq<T>) {
    && IsIndex(index) && |spans| == |index.offsets| && |stream| == index.length
    && forall c | 0 <= c < |spans| && spans[c].Inflated? ::
         && index.offsets[c] <= SpanEnd(index, c) <= |stream|
         && spans[c].bytes == stream[index.offsets[c]..SpanEnd(index, c)]
  }

  /** Every span the unit needs inflates, and the last of its bodies ends inside
      the stream. */
  ghost predicate Runs<T>(index: Index, bodies: seq<Body>, unit: Unit, spans: seq<Inflated<T>>)
    requires 0 < unit.end <= |bodies| && |spans| == |index.offsets|
  {
    && bodies[unit.end - 1].End() <= index.length
    && forall c | 0 <= c < |spans| :: Inflates(index, bodies, unit, c) ==> spans[c].Inflated?
  }

  /** How far the checkpoints before `at` inflate. */
  function Reached(index: Index, from: nat, at: nat): nat
    requires from <= at <= |index.offsets| && from < |index.offsets|
  {
    if at == from then index.offsets[from] else SpanEnd(index, at - 1)
  }

  /** A worker and the buffer it inflates into, which keeps whatever length and
      bytes the units before left it. */
  class Worker<T> {
    var buffer: seq<T>
    const zero: T

    constructor (zero: T)
      ensures buffer == []
    {
      buffer := [];
      this.zero := zero;
    }

    /** Writes one span's bytes into the buffer, growing it as it must. */
    method Write(bytes: seq<T>, at: nat)
      requires at <= |buffer|
      modifies this`buffer
      ensures at + |bytes| <= |buffer| && buffer[..at + |bytes|] == old(buffer)[..at] + bytes
    {
      if |buffer| < at + |bytes| {
        buffer := buffer + seq(at + |bytes| - |buffer|, _ => zero);
      }
      buffer := buffer[..at] + bytes + buffer[at + |bytes|..];
    }

    /** The buffer holds the stream from a checkpoint as far as `at`. */
    ghost predicate HoldsFrom(index: Index, from: nat, at: nat, filled: nat, stream: seq<T>)
      reads this`buffer
    {
      && from <= at <= |index.offsets| && from < |index.offsets| && filled <= |buffer|
      && index.offsets[from] + filled == Reached(index, from, at) <= |stream|
      && buffer[..filled] == stream[index.offsets[from]..index.offsets[from] + filled]
    }

    /** One span more behind what the buffer holds. */
    method InflateOne(index: Index, from: nat, at: nat, filled: nat, spans: seq<Inflated<T>>, ghost stream: seq<T>)
      returns (more: nat)
      requires Faithful(index, spans, stream) && at < |index.offsets| && spans[at].Inflated?
      requires HoldsFrom(index, from, at, filled, stream)
      modifies this`buffer
      ensures HoldsFrom(index, from, at + 1, more, stream)
    {
      var base := index.offsets[from];
      assert index.offsets[at] == base + filled;
      Write(spans[at].bytes, filled);
      more := filled + |spans[at].bytes|;
    }

    /** Inflates from the unit's checkpoint until `needed` bytes are there. */
    method InflateFor(index: Index, from: nat, needed: nat, spans: seq<Inflated<T>>, ghost stream: seq<T>)
      returns (reached: Option<nat>)
      requires Faithful(index, spans, stream) && from < |index.offsets|
      modifies this`buffer
      ensures reached.Some? <==> Covers(index, from, needed, spans)
      ensures reached.Some? ==>
                && needed <= reached.value <= |buffer| && index.offsets[from] + reached.value <= |stream|
                && buffer[..reached.value] == stream[index.offsets[from]..index.offsets[from] + reached.value]
    {
      assert Begins(index, from);
      var filled: nat, at: nat := 0, from;
      while filled < needed
        invariant HoldsFrom(index, from, at, filled, stream)
        invariant AreInflated(index, from, at, needed, spans)
        decreases |index.offsets| - at
      {
        if at >= |index.offsets| { return None; }
        if spans[at].Broken? { return None; }
        filled := InflateOne(index, from, at, filled, spans, stream);
        at := at + 1;
      }
      NoneIsMissing(index, from, at, needed, filled);
      return Some(filled);
    }

    /** Inflates far enough to cover the unit's files, and returns each of their
        bodies out of the buffer. */
    method RunSpan(index: Index, bodies: seq<Body>, unit: Unit, spans: seq<Inflated<T>>, ghost stream: seq<T>)
      returns (written: Option<seq<seq<T>>>)
      requires Faithful(index, spans, stream) && InStreamOrder(bodies) && Cut(index, bodies, unit)
      modifies this`buffer
      ensures written.Some? <==> Runs(index, bodies, unit, spans)
      ensures written.Some? ==> WritesBodies(bodies, unit, written.value, stream)
    {
      var base: nat, end: nat := index.offsets[unit.checkpoint], bodies[unit.end - 1].End();
      var reached := InflateFor(index, unit.checkpoint, end - base, spans, stream);
      if reached.None? { return None; }
      written := CutOut(buffer[..reached.value], base, bodies, unit, stream);
    }
  }

  /** Each of a unit's bodies, out of what was inflated for it. */
  method CutOut<T>(inflated: seq<T>, base: nat, bodies: seq<Body>, unit: Unit, ghost stream: seq<T>)
    returns (written: Option<seq<seq<T>>>)
    requires unit.first <= unit.end <= |bodies| && base + |inflated| <= |stream|
    requires inflated == stream[base..base + |inflated|]
    requires forall i | unit.first <= i < unit.end :: base <= bodies[i].offset && bodies[i].End() <= base + |inflated|
    ensures written.Some? && WritesBodies(bodies, unit, written.value, stream)
  {
    var all: seq<seq<T>> := [];
    for i := unit.first to unit.end
      invariant |all| == i - unit.first && WritesUpTo(bodies, unit.first, i, all, stream)
    {
      var from := bodies[i].offset - base;
      var to := from + bodies[i].size;
      if to > |inflated| { assert false; }
      SliceOfSlice(stream, base, base + |inflated|, from, to);
      all := all + [inflated[from..to]];
    }
    return Some(all);
  }

  ghost predicate AreInflated<T>(index: Index, from: nat, at: nat, needed: nat, spans: seq<Inflated<T>>)
    requires from < |index.offsets| == |spans|
  {
    forall c | from <= c < at && c < |spans| :: spans[c].Inflated? && index.offsets[c] < index.offsets[from] + needed
  }

  /** Inflating from a checkpoint can reach `needed` bytes. */
  ghost predicate Covers<T>(index: Index, from: nat, needed: nat, spans: seq<Inflated<T>>)
    requires from < |index.offsets| == |spans|
  {
    && index.offsets[from] + needed <= index.length
    && forall c | from <= c < |spans| && index.offsets[c] < index.offsets[from] + needed :: spans[c].Inflated?
  }

  ghost predicate WritesUpTo<T>(bodies: seq<Body>, first: nat, end: nat, written: seq<seq<T>>, stream: seq<T>) {
    && first <= end <= |bodies| && |written| == end - first
    && forall i | first <= i < end ::
         bodies[i].End() <= |stream| && written[i - first] == stream[bodies[i].offset..bodies[i].End()]
  }

  /** Every body of the unit, as the layer's stream has it. */
  ghost predicate WritesBodies<T>(bodies: seq<Body>, unit: Unit, written: seq<seq<T>>, stream: seq<T>) {
    WritesUpTo(bodies, unit.first, unit.end, written, stream)
  }

  lemma SliceOfSlice<T>(stream: seq<T>, a: nat, b: nat, from: nat, to: nat)
    requires a <= b <= |stream| && from <= to <= b - a
    ensures stream[a..b][from..to] == stream[a + from..a + to]
  {
    var cut, whole := stream[a..b][from..to], stream[a + from..a + to];
    forall k | 0 <= k < to - from ensures cut[k] == whole[k] {
      assert cut[k] == stream[a..b][from + k];
      assert stream[a..b][from + k] == stream[a + (from + k)];
    }
  }

  lemma NoneIsMissing(index: Index, from: nat, at: nat, needed: nat, filled: nat)
    requires IsIndex(index) && from < |index.offsets| && from <= at <= |index.offsets|
    requires index.offsets[from] + filled == Reached(index, from, at) && needed <= filled
    ensures forall c | at <= c < |index.offsets| :: index.offsets[from] + needed <= index.offsets[c]
  {
    assert at < |index.offsets| ==> Begins(index, at);
  }

}
