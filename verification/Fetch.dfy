/** Fetching the span a file's contents begin in, and every file with it. */
module Fetch {
  import opened Paths
  import opened Spans
  import opened Units

  /** Where a layer's file sits in its stream, and which inode it is. */
  datatype Placed = Placed(body: Body, ino: nat)

  /** Still owed, or in hand with its bytes. */
  datatype Content<T> = Owed(body: Body) | InHand(bytes: seq<T>)

  datatype Window = Window(base: nat, end: nat)

  // ------------------------------------------------------------ which span

  /** How many checkpoints begin at or before `offset`. */
  function PartitionPoint(offsets: seq<nat>, offset: nat): (n: nat)
    requires forall c, d | 0 <= c <= d < |offsets| :: offsets[c] <= offsets[d]
    ensures n <= |offsets| && forall c | 0 <= c < |offsets| :: offsets[c] <= offset <==> c < n
  {
    if offsets == [] then 0
    else if offsets[|offsets| - 1] <= offset then |offsets|
    else PartitionPoint(offsets[..|offsets| - 1], offset)
  }

  /** The last checkpoint at or before where a body begins. */
  function SpanOf(index: Index, body: Body): (c: nat)
    requires IsIndex(index)
    ensures c < |index.offsets| && index.offsets[c] <= body.offset
    ensures c + 1 < |index.offsets| ==> body.offset < index.offsets[c + 1]
  {
    assert forall c, d | 0 <= c <= d < |index.offsets| :: Begins(index, c) && index.offsets[c] <= index.offsets[d];
    PartitionPoint(index.offsets, body.offset) - 1
  }

  /** The window covers the body and the whole span it begins in, and begins at
      that span's checkpoint. */
  predicate HoldsSpan(index: Index, body: Body, window: Window)
    requires IsIndex(index)
  {
    var start := SpanOf(index, body);
    && window.base == index.offsets[start] && body.End() <= window.end
    && SpanEnd(index, start) <= window.end <= index.length
  }

  /** A span the body needs: the one it begins in, or one it runs on into. */
  predicate Needs(index: Index, body: Body, c: nat)
    requires IsIndex(index)
  {
    SpanOf(index, body) <= c < |index.offsets| && (c == SpanOf(index, body) || index.offsets[c] < body.End())
  }

  /** Some span the body needs does not inflate, or it runs past the stream. */
  ghost predicate IsOutOfReach<T>(index: Index, body: Body, spans: seq<Inflated<T>>)
    requires IsIndex(index)
  {
    index.length < body.End() || exists c: nat | c < |spans| && Needs(index, body, c) :: spans[c].Broken?
  }

  // ------------------------------------------------------------ which files

  ghost predicate ByOffset(files: seq<Placed>) {
    forall i, j | 0 <= i <= j < |files| :: files[i].body.offset <= files[j].body.offset
  }

  /** How many of the files begin before `offset`. */
  function BeginBefore(files: seq<Placed>, offset: nat): (n: nat)
    requires ByOffset(files)
    ensures n <= |files| && forall i | 0 <= i < |files| :: files[i].body.offset < offset <==> i < n
  {
    if files == [] then 0
    else if files[|files| - 1].body.offset < offset then |files|
    else BeginBefore(files[..|files| - 1], offset)
  }

  /** A file whose contents lie wholly inside the window. */
  predicate Inside(window: Window, body: Body) {
    window.base <= body.offset < window.end && body.End() <= window.end
  }

  /** What each file is owed is what the layer's list says. */
  ghost predicate OwedAsListed<T>(files: seq<Placed>, contents: map<nat, Content<T>>) {
    forall i | 0 <= i < |files| && files[i].ino in contents && contents[files[i].ino].Owed? ::
      contents[files[i].ino].body == files[i].body
  }

  /** The files from `from` up to `to` that lie inside the window are in hand, as
      their layer's stream has them. Nothing in hand before has changed. */
  ghost predicate Fetched<T>(files: seq<Placed>, from: nat, to: nat, window: Window, stream: seq<T>,
                             before: map<nat, Content<T>>, after: map<nat, Content<T>>)
    requires to <= |files|
  {
    && after.Keys == before.Keys
    && (forall i | from <= i < to && files[i].ino in after && Inside(window, files[i].body) ::
       after[files[i].ino].InHand?)
    && forall ino | ino in after :: after[ino] == before[ino] || IsItsOwn(before[ino], after[ino], stream)
  }

  predicate IsItsOwn<T(==)>(before: Content<T>, after: Content<T>, stream: seq<T>) {
    before.Owed? && before.body.End() <= |stream| && after == InHand(stream[before.body.offset..before.body.End()])
  }

  /** A span inflated later ends no earlier. */
  lemma SpanIsPast(index: Index, start: nat, at: nat)
    requires IsIndex(index) && start <= at < |index.offsets|
    ensures SpanEnd(index, start) <= SpanEnd(index, at)
  {
    if start + 1 < |index.offsets| { assert Begins(index, start + 1); }
    assert Begins(index, at);
  }

  predicate AreWhole<T>(spans: seq<Inflated<T>>, from: nat, to: nat) {
    from <= to <= |spans| && forall c | from <= c < to :: spans[c].Inflated?
  }

  /** With something still missing, a broken span here is one the body needs, and
      no span is left only if the stream ends before the body does. */
  lemma StopsShort<T>(index: Index, body: Body, spans: seq<Inflated<T>>, at: nat, filled: nat)
    requires IsIndex(index) && |spans| == |index.offsets| && SpanOf(index, body) <= at <= |spans|
    requires index.offsets[SpanOf(index, body)] + filled == Reached(index, SpanOf(index, body), at)
    requires filled < body.End() - index.offsets[SpanOf(index, body)] || at == SpanOf(index, body)
    requires at < |spans| ==> spans[at].Broken?
    ensures IsOutOfReach(index, body, spans)
  {
    if at < |spans| { assert Needs(index, body, at); }
  }

  /** With nothing missing, no span further on is needed. */
  lemma GetsThere<T>(index: Index, body: Body, spans: seq<Inflated<T>>, at: nat, filled: nat)
    requires IsIndex(index) && |spans| == |index.offsets| && SpanOf(index, body) < at
    requires AreWhole(spans, SpanOf(index, body), at)
    requires index.offsets[SpanOf(index, body)] + filled == Reached(index, SpanOf(index, body), at)
    requires filled >= body.End() - index.offsets[SpanOf(index, body)]
    ensures !IsOutOfReach(index, body, spans)
  {
    if at < |spans| { assert Begins(index, at); }
    forall c | at <= c < |spans| ensures !Needs(index, body, c) {
      assert Begins(index, at);
    }
  }

  /** One layer's files as they are fetched. */
  class Served<T(==)> {
    const scratch: Worker<T>
    var contents: map<nat, Content<T>>

    constructor (scratch: Worker<T>, contents: map<nat, Content<T>>)
      ensures this.scratch == scratch && this.contents == contents
    {
      this.scratch, this.contents := scratch, contents;
    }

    /** Inflates one span and then on until `needed` bytes are there, or until no
        span is left or one is broken. */
    method InflateOn(index: Index, start: nat, needed: nat, spans: seq<Inflated<T>>, ghost stream: seq<T>)
      returns (at: nat, filled: nat)
      requires Faithful(index, spans, stream) && start < |index.offsets|
      modifies scratch`buffer
      ensures scratch.HoldsFrom(index, start, at, filled, stream) && AreWhole(spans, start, at)
      ensures at > start ==> SpanEnd(index, start) <= index.offsets[start] + filled
      ensures (needed <= filled && at > start) || at == |spans| || spans[at].Broken?
    {
      assert Begins(index, start);
      filled, at := 0, start;
      while filled < needed || at == start
        invariant scratch.HoldsFrom(index, start, at, filled, stream) && AreWhole(spans, start, at)
        invariant at > start ==> SpanEnd(index, start) <= index.offsets[start] + filled
        decreases |index.offsets| - at
      {
        if at >= |index.offsets| || spans[at].Broken? { return; }
        SpanIsPast(index, start, at);
        filled := scratch.InflateOne(index, start, at, filled, spans, stream);
        at := at + 1;
      }
    }

    /** Inflates from the checkpoint before the body, through its span and to
        the body's end. */
    method Inflate(index: Index, body: Body, spans: seq<Inflated<T>>, ghost stream: seq<T>)
      returns (window: Option<Window>)
      requires Faithful(index, spans, stream)
      modifies scratch`buffer
      ensures window.Some? ==>
                && HoldsSpan(index, body, window.value)
                && window.value.end - window.value.base <= |scratch.buffer|
      ensures window.Some? ==>
                scratch.buffer[..window.value.end - window.value.base] == stream[window.value.base..window.value.end]
      ensures window.None? <==> IsOutOfReach(index, body, spans)
    {
      var start := SpanOf(index, body);
      var base := index.offsets[start];
      var needed: nat := body.End() - base;
      var at, filled := InflateOn(index, start, needed, spans, stream);
      if filled < needed || at == start {
        StopsShort(index, body, spans, at, filled);
        return None;
      }
      GetsThere(index, body, spans, at, filled);
      return Some(Window(base, base + filled));
    }

    /** What a window holds of a body, when it holds all of it. */
    method Bytes(body: Body, window: Window, ghost stream: seq<T>) returns (bytes: Option<seq<T>>)
      requires window.base <= body.offset && window.base <= window.end <= |stream|
      requires window.end - window.base <= |scratch.buffer|
      requires scratch.buffer[..window.end - window.base] == stream[window.base..window.end]
      ensures bytes == if body.End() <= window.end then Some(stream[body.offset..body.End()]) else None
    {
      var from := body.offset - window.base;
      var to := from + body.size;
      if to > window.end - window.base { return None; }
      SliceOfSlice(stream, window.base, window.end, from, to);
      return Some(scratch.buffer[..window.end - window.base][from..to]);
    }

    /** Fetches the body's span, and with it every file the window holds whole. */
    method FetchSpan(index: Index, body: Body, files: seq<Placed>, spans: seq<Inflated<T>>, ghost stream: seq<T>)
      returns (window: Option<Window>)
      requires Faithful(index, spans, stream) && ByOffset(files) && OwedAsListed(files, contents)
      modifies this`contents, scratch`buffer
      ensures OwedAsListed(files, contents)
      ensures window.None? <==> IsOutOfReach(index, body, spans)
      ensures window.None? ==> contents == old(contents)
      ensures window.Some? ==>
                && HoldsSpan(index, body, window.value)
                && Fetched(files, 0, |files|, window.value, stream, old(contents), contents)
    {
      window := Inflate(index, body, spans, stream);
      if window.None? { return; }
      var w := window.value;
      var from, to := BeginBefore(files, w.base), BeginBefore(files, w.end);
      assert w.base <= w.end && (to < |files| ==> w.end <= files[to].body.offset);
      var i := from;
      while i < to
        invariant from <= i <= to && OwedAsListed(files, contents)
        invariant Fetched(files, from, i, w, stream, old(contents), contents)
        invariant w.end - w.base <= |scratch.buffer| && scratch.buffer[..w.end - w.base] == stream[w.base..w.end]
      {
        var ino := files[i].ino;
        if ino in contents && contents[ino].Owed? {
          var bytes := Bytes(contents[ino].body, w, stream);
          if bytes.Some? { contents := contents[ino := InHand(bytes.value)]; }
        }
        i := i + 1;
      }
    }
  }
}
