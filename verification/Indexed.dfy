/** A layer's blob through its index: what the units of a plan inflate. */
module Indexed {
  import opened Paths
  import opened Frames
  import opened Units
  import C = Checkpoints
  import S = Spans

  /** Where each checkpoint's span begins in the stream. */
  function Offsets(index: C.Index): S.Index {
    S.Index(seq(|index.checkpoints|, i requires 0 <= i < |index.checkpoints| => index.checkpoints[i].outOffset),
            index.length)
  }

  lemma {:induction false} OffsetsRise(index: C.Index, c: nat, d: nat)
    requires C.Tiles(index) && c <= d < |index.checkpoints|
    ensures index.checkpoints[c].outOffset <= index.checkpoints[d].outOffset
  {
    if c < d {
      OffsetsRise(index, c, d - 1);
      assert index.checkpoints[d - 1].outOffset <= C.OutEnd(index, d - 1);
    }
  }

  /** Spans that tile a stream are an index to cut its files by. */
  lemma TilesAreAnIndex(index: C.Index)
    requires C.Tiles(index)
    ensures S.IsIndex(Offsets(index))
    ensures forall i | 0 <= i < |index.checkpoints| :: S.SpanEnd(Offsets(index), i) == C.OutEnd(index, i)
  {
    forall c | 0 <= c < |index.checkpoints| ensures S.Begins(Offsets(index), c) {
      assert index.checkpoints[c].outOffset <= C.OutEnd(index, c) <= index.length;
      forall d | c <= d < |index.checkpoints| ensures index.checkpoints[c].outOffset <= index.checkpoints[d].outOffset {
        OffsetsRise(index, c, d);
      }
    }
  }

  /** Every span inflated on its own. From the blob the index describes, each
      gives its own bytes of the stream and none is broken. */
  method InflateAll(decoder: Decoder, sum: C.Checksum, blob: Bytes, index: C.Index, ghost stream: Bytes)
    returns (spans: seq<Inflated<Byte>>)
    requires IsDecoder(decoder) && C.Tiles(index)
    ensures |spans| == |index.checkpoints|
    ensures C.Describes(decoder, sum, blob, index, stream) ==>
              && Faithful(Offsets(index), spans, stream)
              && forall i | 0 <= i < |spans| :: spans[i].Inflated?
  {
    spans := [];
    TilesAreAnIndex(index);
    for i := 0 to |index.checkpoints|
      invariant |spans| == i
      invariant C.Describes(decoder, sum, blob, index, stream) ==>
                  forall c | 0 <= c < i ::
                    && index.checkpoints[c].outOffset <= C.OutEnd(index, c) <= |stream|
                    && spans[c] == Inflated(stream[index.checkpoints[c].outOffset..C.OutEnd(index, c)])
    {
      var span := C.ExtractSpan(decoder, sum, blob, index, i, stream);
      spans := spans + [if span.Some? then Inflated(span.value) else Broken];
    }
  }
}
