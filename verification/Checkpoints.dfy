/** Cutting a zstd blob into spans that can be decoded each on its own. */
module Checkpoints {
  import opened Paths
  import opened Frames

  /** A place to resume at: where in the blob, where in the stream, and the
      checksum of the bytes from there to the next. */
  datatype Checkpoint = Checkpoint(inOffset: nat, outOffset: nat, crc: int)

  datatype Index = Index(length: nat, checkpoints: seq<Checkpoint>)

  const MAX_CHECKPOINTS := 0x10_0000

  type Checksum = Bytes -> int

  // ------------------------------------------------------------ what an index says

  function OutEnd(index: Index, i: nat): nat {
    if i + 1 < |index.checkpoints| then index.checkpoints[i + 1].outOffset else index.length
  }

  function InEnd(index: Index, blob: Bytes, i: nat): nat {
    if i + 1 < |index.checkpoints| then index.checkpoints[i + 1].inOffset else |blob|
  }

  /** Decoding from a checkpoint up to the next gives its own bytes of the
      stream. */
  ghost predicate SpanHolds(decoder: Decoder, sum: Checksum, blob: Bytes, index: Index, stream: Bytes, i: nat)
    requires IsDecoder(decoder) && i < |index.checkpoints|
  {
    var c := index.checkpoints[i];
    && c.outOffset <= OutEnd(index, i) <= |stream|
    && Yields(decoder, blob, c.inOffset, InEnd(index, blob, i), stream[c.outOffset..OutEnd(index, i)])
    && c.crc == sum(stream[c.outOffset..OutEnd(index, i)])
  }

  /** The spans tile the stream from its start to its end. */
  ghost predicate Describes(decoder: Decoder, sum: Checksum, blob: Bytes, index: Index, stream: Bytes)
    requires IsDecoder(decoder)
  {
    && index.checkpoints != [] && index.checkpoints[0].inOffset == 0 && index.checkpoints[0].outOffset == 0
    && index.length == |stream| && |index.checkpoints| <= MAX_CHECKPOINTS
    && Yields(decoder, blob, 0, |blob|, stream)
    && forall i | 0 <= i < |index.checkpoints| :: SpanHolds(decoder, sum, blob, index, stream, i)
  }

  // ------------------------------------------------------------ build_zstd

  datatype Built = Built(index: Index) | Unreadable | TooMany

  /** An index as far as the blob has been read: the last checkpoint's span is
      what came since, and its checksum is not known yet. */
  ghost predicate SoFar(decoder: Decoder, sum: Checksum, blob: Bytes, cs: seq<Checkpoint>, pos: nat, stream: Bytes)
    requires IsDecoder(decoder)
  {
    && cs != [] && |cs| <= MAX_CHECKPOINTS && cs[0].inOffset == 0 && cs[0].outOffset == 0
    && Yields(decoder, blob, 0, pos, stream)
    && (forall i | 0 <= i < |cs| - 1 :: Closed(decoder, sum, blob, cs, stream, i))
    && var last := cs[|cs| - 1];
       last.outOffset <= |stream| && Yields(decoder, blob, last.inOffset, pos, stream[last.outOffset..])
  }

  ghost predicate Closed(decoder: Decoder, sum: Checksum, blob: Bytes, cs: seq<Checkpoint>, stream: Bytes, i: nat)
    requires IsDecoder(decoder) && i < |cs| - 1
  {
    && cs[i].outOffset <= cs[i + 1].outOffset <= |stream|
    && Yields(decoder, blob, cs[i].inOffset, cs[i + 1].inOffset, stream[cs[i].outOffset..cs[i + 1].outOffset])
    && cs[i].crc == sum(stream[cs[i].outOffset..cs[i + 1].outOffset])
  }

  lemma SliceOfMore(stream: Bytes, more: Bytes, from: nat, to: nat)
    requires from <= to <= |stream|
    ensures (stream + more)[from..to] == stream[from..to]
  {
  }

  /** One frame more. */
  lemma FrameAdds(decoder: Decoder, sum: Checksum, blob: Bytes, cs: seq<Checkpoint>, pos: nat, stream: Bytes)
    requires IsDecoder(decoder) && SoFar(decoder, sum, blob, cs, pos, stream) && pos < |blob|
    requires NextFrame(decoder, blob, pos).Some?
    ensures var next := NextFrame(decoder, blob, pos).value;
            pos < next.0 <= |blob| && SoFar(decoder, sum, blob, cs, next.0, stream + next.1)
  {
    var next := NextFrame(decoder, blob, pos).value;
    NextFrameIsFurther(decoder, blob, pos);
    var last := cs[|cs| - 1];
    YieldsBoth(decoder, blob, 0, pos, next.0, stream, next.1);
    YieldsBoth(decoder, blob, last.inOffset, pos, next.0, stream[last.outOffset..], next.1);
    assert (stream + next.1)[last.outOffset..] == stream[last.outOffset..] + next.1;
    forall i | 0 <= i < |cs| - 1 ensures Closed(decoder, sum, blob, cs, stream + next.1, i) {
      assert Closed(decoder, sum, blob, cs, stream, i);
      SliceOfMore(stream, next.1, cs[i].outOffset, cs[i + 1].outOffset);
    }
  }

  function WithCrc(cs: seq<Checkpoint>, crc: int): seq<Checkpoint>
    requires cs != []
  {
    cs[|cs| - 1 := cs[|cs| - 1].(crc := crc)]
  }

  /** A checkpoint more, at a frame boundary. */
  lemma CheckpointAdds(decoder: Decoder, sum: Checksum, blob: Bytes, cs: seq<Checkpoint>, pos: nat, stream: Bytes)
    requires IsDecoder(decoder) && SoFar(decoder, sum, blob, cs, pos, stream) && |cs| < MAX_CHECKPOINTS
    ensures var closed := WithCrc(cs, sum(stream[cs[|cs| - 1].outOffset..]));
            SoFar(decoder, sum, blob, closed + [Checkpoint(pos, |stream|, 0)], pos, stream)
  {
    YieldsGoesForward(decoder, blob, 0, pos, stream);
    assert stream[|stream|..] == [];
    var last := |cs| - 1;
    var more := WithCrc(cs, sum(stream[cs[last].outOffset..])) + [Checkpoint(pos, |stream|, 0)];
    forall i | 0 <= i < |more| - 1 ensures Closed(decoder, sum, blob, more, stream, i) {
      if i < last {
        assert Closed(decoder, sum, blob, cs, stream, i);
      } else {
        assert stream[cs[last].outOffset..|stream|] == stream[cs[last].outOffset..];
      }
    }
  }

  lemma ReadToTheEnd(decoder: Decoder, sum: Checksum, blob: Bytes, cs: seq<Checkpoint>, stream: Bytes)
    requires IsDecoder(decoder) && SoFar(decoder, sum, blob, cs, |blob|, stream)
    ensures Describes(decoder, sum, blob, Index(|stream|, WithCrc(cs, sum(stream[cs[|cs| - 1].outOffset..]))), stream)
  {
    var last := |cs| - 1;
    var index := Index(|stream|, WithCrc(cs, sum(stream[cs[last].outOffset..])));
    forall i | 0 <= i < |index.checkpoints| ensures SpanHolds(decoder, sum, blob, index, stream, i) {
      if i < last {
        assert Closed(decoder, sum, blob, cs, stream, i);
      } else {
        assert stream[cs[last].outOffset..|stream|] == stream[cs[last].outOffset..];
      }
    }
  }

  /** A frame that does not end or decode is one no stream gets past. */
  lemma NothingGetsPast(decoder: Decoder, blob: Bytes, pos: nat, stream: Bytes, all: Bytes)
    requires IsDecoder(decoder) && Yields(decoder, blob, 0, pos, stream) && pos < |blob|
    requires NextFrame(decoder, blob, pos).None?
    ensures !Yields(decoder, blob, 0, |blob|, all)
  {
    if Yields(decoder, blob, 0, |blob|, all) {
      YieldsTheRest(decoder, blob, 0, pos, |blob|, stream, all);
    }
  }

  function Times(n: nat, span: nat): nat {
    if n == 0 then 0 else Times(n - 1, span) + span
  }

  /** A checkpoint every `span` bytes or more. */
  predicate IsSpaced(cs: seq<Checkpoint>, span: nat) {
    forall i | 0 <= i < |cs| - 1 :: cs[i].outOffset + span <= cs[i + 1].outOffset
  }

  // ------------------------------------------------------------ how many there have to be

  /** Whether a data frame starts at `pos`, `span` bytes or more past the last
      checkpoint. */
  predicate IsCutAt(blob: Bytes, span: nat, pos: nat, out: nat, last: nat)
    requires pos < |blob|
  {
    SkippableLen(blob[pos..]).None? && last + span <= out
  }

  /** How many checkpoints come after `pos`, as far as frames can be read. */
  ghost function CutsFrom(decoder: Decoder, blob: Bytes, span: nat, pos: nat, out: nat, last: nat): nat
    requires IsDecoder(decoder) && pos <= |blob|
    decreases |blob| - pos
  {
    if pos == |blob| then 0
    else
      NextFrameIsFurther(decoder, blob, pos);
      var cut := IsCutAt(blob, span, pos, out, last);
      (if cut then 1 else 0) +
      match NextFrame(decoder, blob, pos)
      case None => 0
      case Some((end, bytes)) => CutsFrom(decoder, blob, span, end, out + |bytes|, if cut then out else last)
  }

  /** One at the start of the blob, and one at every cut after it. */
  ghost function CheckpointsNeeded(decoder: Decoder, blob: Bytes, span: nat): nat
    requires IsDecoder(decoder)
  {
    1 + CutsFrom(decoder, blob, span, 0, 0, 0)
  }

  /** `n` checkpoints so far, and as many to come as are needed in all. */
  ghost predicate IsOnCount(decoder: Decoder, blob: Bytes, span: nat, pos: nat, out: nat, last: nat, n: nat)
    requires IsDecoder(decoder) && pos <= |blob|
  {
    n + CutsFrom(decoder, blob, span, pos, out, last) == CheckpointsNeeded(decoder, blob, span)
  }

  lemma FrameIsCounted(decoder: Decoder, blob: Bytes, span: nat, pos: nat, out: nat, last: nat, n: nat)
    requires IsDecoder(decoder) && pos < |blob| && IsOnCount(decoder, blob, span, pos, out, last, n)
    ensures var cut := IsCutAt(blob, span, pos, out, last);
            && (cut ==> n < CheckpointsNeeded(decoder, blob, span))
            && match NextFrame(decoder, blob, pos)
               case None => CheckpointsNeeded(decoder, blob, span) == n + if cut then 1 else 0
               case Some((end, bytes)) =>
                 && end <= |blob|
                 && IsOnCount(decoder, blob, span, end, out + |bytes|, if cut then out else last,
                              n + if cut then 1 else 0)
  {
    NextFrameIsFurther(decoder, blob, pos);
  }

  lemma {:induction false} CutsAreSpaced(decoder: Decoder, blob: Bytes, span: nat, pos: nat, out: nat, last: nat,
                                         rest: Bytes)
    requires IsDecoder(decoder) && pos <= |blob| && last <= out && Yields(decoder, blob, pos, |blob|, rest)
    ensures last + Times(CutsFrom(decoder, blob, span, pos, out, last), span) <= out + |rest|
    decreases |blob| - pos
  {
    if pos < |blob| {
      NextFrameIsFurther(decoder, blob, pos);
      var next := NextFrame(decoder, blob, pos).value;
      var at := if IsCutAt(blob, span, pos, out, last) then out else last;
      CutsAreSpaced(decoder, blob, span, next.0, out + |next.1|, at, rest[|next.1|..]);
    }
  }

  /** A stream has no more spans than fit in it. */
  lemma SpansFitInTheStream(decoder: Decoder, blob: Bytes, span: nat, stream: Bytes)
    requires IsDecoder(decoder) && Yields(decoder, blob, 0, |blob|, stream)
    ensures Times(CheckpointsNeeded(decoder, blob, span) - 1, span) <= |stream|
  {
    CutsAreSpaced(decoder, blob, span, 0, 0, 0, stream);
  }

  // ------------------------------------------------------------ where they are

  predicate IsDataFrame(blob: Bytes, pos: nat) {
    pos < |blob| && SkippableLen(blob[pos..]).None?
  }

  /** A checkpoint at the frame itself, or less than `span` bytes before it. */
  predicate IsNear(cs: seq<Checkpoint>, span: nat, pos: nat, out: nat) {
    exists i | 0 <= i < |cs| :: cs[i].outOffset <= out && (cs[i].inOffset == pos || out < cs[i].outOffset + span)
  }

  /** Every data frame before `pos` has a checkpoint near, and every checkpoint but
      the first is at a data frame. */
  ghost predicate AreNear(decoder: Decoder, blob: Bytes, span: nat, cs: seq<Checkpoint>, pos: nat)
    requires IsDecoder(decoder)
  {
    && (forall p: nat, out: Bytes | p < pos && IsDataFrame(blob, p) && Yields(decoder, blob, 0, p, out) ::
          IsNear(cs, span, p, |out|))
    && forall i | 0 < i < |cs| :: IsDataFrame(blob, cs[i].inOffset)
  }

  /** A boundary inside the next frame is where it starts. */
  lemma NoBoundaryInside(decoder: Decoder, blob: Bytes, pos: nat, stream: Bytes, p: nat, out: Bytes)
    requires IsDecoder(decoder) && Yields(decoder, blob, 0, pos, stream) && Yields(decoder, blob, 0, p, out)
    requires pos < |blob| && NextFrame(decoder, blob, pos).Some? && pos <= p < NextFrame(decoder, blob, pos).value.0
    ensures p == pos && out == stream
  {
    YieldsTheRest(decoder, blob, 0, pos, p, stream, out);
    var rest := out[|stream|..];
    if !(pos == p && rest == []) {
      var next := NextFrame(decoder, blob, pos).value;
      NextFrameIsFurther(decoder, blob, pos);
      YieldsGoesForward(decoder, blob, next.0, p, rest[|next.1|..]);
      assert false;
    }
    assert out == stream + rest;
  }

  lemma FrameIsNear(decoder: Decoder, blob: Bytes, span: nat, cs: seq<Checkpoint>, pos: nat, stream: Bytes)
    requires IsDecoder(decoder) && Yields(decoder, blob, 0, pos, stream) && AreNear(decoder, blob, span, cs, pos)
    requires pos < |blob| && NextFrame(decoder, blob, pos).Some?
    requires IsDataFrame(blob, pos) ==> IsNear(cs, span, pos, |stream|)
    ensures AreNear(decoder, blob, span, cs, NextFrame(decoder, blob, pos).value.0)
  {
    forall p: nat, out: Bytes | p < NextFrame(decoder, blob, pos).value.0 && IsDataFrame(blob, p)
                                && Yields(decoder, blob, 0, p, out)
      ensures IsNear(cs, span, p, |out|)
    {
      if p >= pos { NoBoundaryInside(decoder, blob, pos, stream, p, out); }
    }
  }

  lemma PushedIsNear(decoder: Decoder, blob: Bytes, span: nat, cs: seq<Checkpoint>, pos: nat, out: nat, crc: int)
    requires IsDecoder(decoder) && AreNear(decoder, blob, span, cs, pos) && IsDataFrame(blob, pos) && cs != []
    ensures AreNear(decoder, blob, span, WithCrc(cs, crc) + [Checkpoint(pos, out, 0)], pos)
    ensures IsNear(WithCrc(cs, crc) + [Checkpoint(pos, out, 0)], span, pos, out)
  {
    var more := WithCrc(cs, crc) + [Checkpoint(pos, out, 0)];
    assert more[|cs|] == Checkpoint(pos, out, 0);
    forall p: nat, o: nat | IsNear(cs, span, p, o) ensures IsNear(more, span, p, o) {
      var i :| 0 <= i < |cs| && cs[i].outOffset <= o && (cs[i].inOffset == p || o < cs[i].outOffset + span);
      assert more[i].outOffset == cs[i].outOffset && more[i].inOffset == cs[i].inOffset;
    }
  }

  lemma CrcMovesNothing(decoder: Decoder, blob: Bytes, span: nat, cs: seq<Checkpoint>, pos: nat, crc: int)
    requires IsDecoder(decoder) && AreNear(decoder, blob, span, cs, pos) && cs != []
    ensures AreNear(decoder, blob, span, WithCrc(cs, crc), pos)
  {
    forall p: nat, o: nat | IsNear(cs, span, p, o) ensures IsNear(WithCrc(cs, crc), span, p, o) {
      var i :| 0 <= i < |cs| && cs[i].outOffset <= o && (cs[i].inOffset == p || o < cs[i].outOffset + span);
      assert WithCrc(cs, crc)[i].outOffset == cs[i].outOffset && WithCrc(cs, crc)[i].inOffset == cs[i].inOffset;
    }
  }

  /** What the walk knows at a frame boundary: what has come out, and what of it
      since the last checkpoint. */
  ghost predicate AtBoundary(decoder: Decoder, sum: Checksum, blob: Bytes, span: nat, cs: seq<Checkpoint>, pos: nat,
                             out: nat, last: nat, since: Bytes, stream: Bytes)
    requires IsDecoder(decoder)
  {
    && SoFar(decoder, sum, blob, cs, pos, stream) && pos <= |blob|
    && out == |stream| && last == cs[|cs| - 1].outOffset && since == stream[last..]
    && IsSpaced(cs, span) && AreNear(decoder, blob, span, cs, pos)
  }

  lemma NotCutIsNear(decoder: Decoder, sum: Checksum, blob: Bytes, span: nat, cs: seq<Checkpoint>, pos: nat,
                     out: nat, last: nat, since: Bytes, stream: Bytes)
    requires IsDecoder(decoder) && AtBoundary(decoder, sum, blob, span, cs, pos, out, last, since, stream)
    requires out < last + span
    ensures IsNear(cs, span, pos, out)
  {
    assert cs[|cs| - 1].outOffset <= out;
  }

  lemma FrameIsRead(decoder: Decoder, sum: Checksum, blob: Bytes, span: nat, cs: seq<Checkpoint>, pos: nat,
                    out: nat, last: nat, since: Bytes, stream: Bytes)
    requires IsDecoder(decoder) && AtBoundary(decoder, sum, blob, span, cs, pos, out, last, since, stream)
    requires pos < |blob| && NextFrame(decoder, blob, pos).Some?
    requires IsDataFrame(blob, pos) ==> IsNear(cs, span, pos, out)
    ensures var next := NextFrame(decoder, blob, pos).value;
            && pos < next.0 <= |blob|
            && AtBoundary(decoder, sum, blob, span, cs, next.0, out + |next.1|, last, since + next.1, stream + next.1)
  {
    FrameAdds(decoder, sum, blob, cs, pos, stream);
    FrameIsNear(decoder, blob, span, cs, pos, stream);
    var more := NextFrame(decoder, blob, pos).value.1;
    assert (stream + more)[last..] == since + more;
  }

  lemma SkippableIsRead(decoder: Decoder, sum: Checksum, blob: Bytes, span: nat, cs: seq<Checkpoint>, pos: nat,
                        out: nat, last: nat, since: Bytes, stream: Bytes)
    requires IsDecoder(decoder) && AtBoundary(decoder, sum, blob, span, cs, pos, out, last, since, stream)
    requires pos < |blob| && SkippableLen(blob[pos..]).Some? && pos + SkippableLen(blob[pos..]).value <= |blob|
    ensures AtBoundary(decoder, sum, blob, span, cs, pos + SkippableLen(blob[pos..]).value, out, last, since, stream)
  {
    FrameIsRead(decoder, sum, blob, span, cs, pos, out, last, since, stream);
    assert stream + [] == stream && since + [] == since;
  }

  lemma CheckpointIsPushed(decoder: Decoder, sum: Checksum, blob: Bytes, span: nat, cs: seq<Checkpoint>, pos: nat,
                           out: nat, last: nat, since: Bytes, stream: Bytes)
    requires IsDecoder(decoder) && AtBoundary(decoder, sum, blob, span, cs, pos, out, last, since, stream)
    requires last + span <= out && |cs| < MAX_CHECKPOINTS
    requires IsDataFrame(blob, pos)
    ensures AtBoundary(decoder, sum, blob, span, WithCrc(cs, sum(since)) + [Checkpoint(pos, out, 0)], pos,
                       out, out, [], stream)
    ensures IsNear(WithCrc(cs, sum(since)) + [Checkpoint(pos, out, 0)], span, pos, out)
  {
    CheckpointAdds(decoder, sum, blob, cs, pos, stream);
    PushedIsNear(decoder, blob, span, cs, pos, out, sum(since));
    assert stream[out..] == [];
  }

  /** Frames can be read from the start of the blob to its end. */
  ghost predicate IsReadable(decoder: Decoder, blob: Bytes)
    requires IsDecoder(decoder)
  {
    exists all :: Yields(decoder, blob, 0, |blob|, all)
  }

  /** A frame that does not end or decode leaves the blob unreadable, whatever
      was to come. */
  lemma NoStreamGetsPast(decoder: Decoder, sum: Checksum, blob: Bytes, span: nat, cs: seq<Checkpoint>, pos: nat,
                         out: nat, last: nat, since: Bytes, stream: Bytes)
    requires IsDecoder(decoder) && AtBoundary(decoder, sum, blob, span, cs, pos, out, last, since, stream)
    requires pos < |blob| && NextFrame(decoder, blob, pos).None?
    ensures !IsReadable(decoder, blob)
  {
    forall all {
      NothingGetsPast(decoder, blob, pos, stream, all);
    }
  }

  lemma WholeIsDescribed(decoder: Decoder, sum: Checksum, blob: Bytes, span: nat, cs: seq<Checkpoint>,
                         out: nat, last: nat, since: Bytes, stream: Bytes)
    requires IsDecoder(decoder) && AtBoundary(decoder, sum, blob, span, cs, |blob|, out, last, since, stream)
    requires IsOnCount(decoder, blob, span, |blob|, out, last, |cs|)
    ensures var index := Index(out, WithCrc(cs, sum(since)));
            && Describes(decoder, sum, blob, index, stream) && IsSpaced(index.checkpoints, span)
            && |index.checkpoints| == CheckpointsNeeded(decoder, blob, span) <= MAX_CHECKPOINTS
            && AreNear(decoder, blob, span, index.checkpoints, |blob|)
    ensures IsReadable(decoder, blob)
  {
    CrcMovesNothing(decoder, blob, span, cs, |blob|, sum(since));
    assert Yields(decoder, blob, 0, |blob|, stream);
    ReadToTheEnd(decoder, sum, blob, cs, stream);
    var closed := WithCrc(cs, sum(since));
    forall i | 0 <= i < |closed| - 1 ensures closed[i].outOffset + span <= closed[i + 1].outOffset {
      assert cs[i].outOffset + span <= cs[i + 1].outOffset;
    }
  }

  /** How reading one frame went. */
  datatype Read = Further | Broken | Full

  /** Reads the data frame here. One that starts `span` bytes or more past the last
      checkpoint gets a checkpoint of its own first. */
  method ReadDataFrame(decoder: Decoder, sum: Checksum, blob: Bytes, span: nat, cs: seq<Checkpoint>, pos: nat, out: nat,
                       last: nat, since: Bytes, ghost stream: Bytes)
    returns (read: Read, more: seq<Checkpoint>, end: nat, outNow: nat, lastNow: nat, sinceNow: Bytes,
             ghost streamNow: Bytes)
    requires IsDecoder(decoder) && AtBoundary(decoder, sum, blob, span, cs, pos, out, last, since, stream)
    requires pos < |blob| && IsOnCount(decoder, blob, span, pos, out, last, |cs|) && IsDataFrame(blob, pos)
    ensures read == Further ==>
              && pos < end <= |blob|
              && AtBoundary(decoder, sum, blob, span, more, end, outNow, lastNow, sinceNow, streamNow)
              && IsOnCount(decoder, blob, span, end, outNow, lastNow, |more|)
    ensures read == Broken ==>
              !IsReadable(decoder, blob) && CheckpointsNeeded(decoder, blob, span) <= MAX_CHECKPOINTS
    ensures read == Full ==> CheckpointsNeeded(decoder, blob, span) > MAX_CHECKPOINTS
  {
    more, end, outNow, lastNow, sinceNow, streamNow := cs, pos, out, last, since, stream;
    if out >= last + span {
      if |cs| == MAX_CHECKPOINTS {
        FrameIsCounted(decoder, blob, span, pos, out, last, |cs|);
        read := Full;
        return;
      }
      CheckpointIsPushed(decoder, sum, blob, span, cs, pos, out, last, since, stream);
      more, lastNow, sinceNow := WithCrc(cs, sum(since)) + [Checkpoint(pos, out, 0)], out, [];
    } else {
      NotCutIsNear(decoder, sum, blob, span, cs, pos, out, last, since, stream);
    }
    var next := NextFrame(decoder, blob, pos);
    if next.None? {
      FrameIsCounted(decoder, blob, span, pos, out, last, |cs|);
      NoStreamGetsPast(decoder, sum, blob, span, more, pos, out, lastNow, sinceNow, stream);
      read := Broken;
      return;
    }
    FrameIsCounted(decoder, blob, span, pos, out, last, |cs|);
    FrameIsRead(decoder, sum, blob, span, more, pos, out, lastNow, sinceNow, stream);
    read, end, outNow, streamNow := Further, next.value.0, out + |next.value.1|, stream + next.value.1;
    sinceNow := sinceNow + next.value.1;
  }

  /** Reads the frame here, or steps over it. */
  method ReadFrame(decoder: Decoder, sum: Checksum, blob: Bytes, span: nat, cs: seq<Checkpoint>, pos: nat, out: nat,
                   last: nat, since: Bytes, ghost stream: Bytes)
    returns (read: Read, more: seq<Checkpoint>, end: nat, outNow: nat, lastNow: nat, sinceNow: Bytes,
             ghost streamNow: Bytes)
    requires IsDecoder(decoder) && AtBoundary(decoder, sum, blob, span, cs, pos, out, last, since, stream)
    requires pos < |blob| && IsOnCount(decoder, blob, span, pos, out, last, |cs|)
    ensures read == Further ==>
              && pos < end <= |blob|
              && AtBoundary(decoder, sum, blob, span, more, end, outNow, lastNow, sinceNow, streamNow)
              && IsOnCount(decoder, blob, span, end, outNow, lastNow, |more|)
    ensures read == Broken ==>
              !IsReadable(decoder, blob) && CheckpointsNeeded(decoder, blob, span) <= MAX_CHECKPOINTS
    ensures read == Full ==> CheckpointsNeeded(decoder, blob, span) > MAX_CHECKPOINTS
  {
    var skip := SkippableLen(blob[pos..]);
    if skip.None? {
      read, more, end, outNow, lastNow, sinceNow, streamNow :=
        ReadDataFrame(decoder, sum, blob, span, cs, pos, out, last, since, stream);
      return;
    }
    more, end, outNow, lastNow, sinceNow, streamNow := cs, pos, out, last, since, stream;
    FrameIsCounted(decoder, blob, span, pos, out, last, |cs|);
    if pos + skip.value > |blob| {
      NoStreamGetsPast(decoder, sum, blob, span, cs, pos, out, last, since, stream);
      read := Broken;
      return;
    }
    SkippableIsRead(decoder, sum, blob, span, cs, pos, out, last, since, stream);
    read, end := Further, pos + skip.value;
  }

  /** Reads one frame after another. There is an index just when frames can be read
      to the blob's end and the checkpoints are not too many, and then it has
      exactly those: at data frames, no closer together than `span` bytes of the
      stream, and no data frame further than that from the last. */
  method BuildZstd(decoder: Decoder, sum: Checksum, blob: Bytes, span: nat) returns (built: Built, ghost stream: Bytes)
    requires IsDecoder(decoder)
    ensures built.Built? <==>
              && CheckpointsNeeded(decoder, blob, span) <= MAX_CHECKPOINTS
              && IsReadable(decoder, blob)
    ensures built.TooMany? <==> CheckpointsNeeded(decoder, blob, span) > MAX_CHECKPOINTS
    ensures built.Built? ==>
              && Describes(decoder, sum, blob, built.index, stream) && IsSpaced(built.index.checkpoints, span)
              && |built.index.checkpoints| == CheckpointsNeeded(decoder, blob, span)
              && AreNear(decoder, blob, span, built.index.checkpoints, |blob|)
  {
    var cs, pos: nat, out: nat, last: nat, since: Bytes := [Checkpoint(0, 0, 0)], 0, 0, 0, [];
    stream := [];
    while pos < |blob|
      invariant AtBoundary(decoder, sum, blob, span, cs, pos, out, last, since, stream)
      invariant IsOnCount(decoder, blob, span, pos, out, last, |cs|)
      decreases |blob| - pos
    {
      var read;
      read, cs, pos, out, last, since, stream :=
        ReadFrame(decoder, sum, blob, span, cs, pos, out, last, since, stream);
      if read == Broken { return Unreadable, stream; }
      if read == Full { return TooMany, stream; }
    }
    WholeIsDescribed(decoder, sum, blob, span, cs, out, last, since, stream);
    built := Built(Index(out, WithCrc(cs, sum(since))));
  }

  // ------------------------------------------------------------ decode_span

  /** Every boundary's frames but the last, and the bytes they are short of. */
  lemma NextOfSpan(decoder: Decoder, blob: Bytes, pos: nat, end: nat, rest: Bytes)
    requires IsDecoder(decoder) && Yields(decoder, blob, pos, end, rest) && rest != []
    ensures pos < |blob| && NextFrame(decoder, blob, pos).Some?
    ensures var next := NextFrame(decoder, blob, pos).value;
            && pos < next.0 <= |blob| && next.1 <= rest
            && Yields(decoder, blob, next.0, end, rest[|next.1|..])
  {
    assert YieldsNext(decoder, blob, pos, end, rest);
    NextFrameIsFurther(decoder, blob, pos);
  }

  /** Decodes frames from `from` until `len` bytes have come out, or gives up: on
      a frame that does not decode, at the end of the blob, or when a frame runs
      past `len`. Whatever the blob is, what it gives is `len` bytes. */
  method DecodeSpan(decoder: Decoder, blob: Bytes, from: nat, len: nat, ghost end: nat, ghost whole: Bytes)
    returns (span: Option<Bytes>)
    requires IsDecoder(decoder)
    ensures span.Some? ==> |span.value| == len
    ensures |whole| == len && Yields(decoder, blob, from, end, whole) ==> span == Some(whole)
  {
    var pos, filled: Bytes := from, [];
    ghost var indexed := |whole| == len && Yields(decoder, blob, from, end, whole);
    while |filled| < len
      invariant |filled| <= len
      invariant indexed ==> filled <= whole && Yields(decoder, blob, pos, end, whole[|filled|..])
      decreases if pos <= |blob| then |blob| - pos else 0
    {
      if indexed { NextOfSpan(decoder, blob, pos, end, whole[|filled|..]); }
      if pos >= |blob| { return None; }
      NextFrameIsFurther(decoder, blob, pos);
      var skip := SkippableLen(blob[pos..]);
      if skip.Some? {
        if pos + skip.value > |blob| { return None; }
        pos := pos + skip.value;
      } else {
        var next := NextFrame(decoder, blob, pos);
        if next.None? { return None; }
        var bytes := next.value.1;
        if |filled| + |bytes| > len { return None; }
        filled := filled + bytes;
        pos := next.value.0;
      }
    }
    assert filled <= whole && |filled| == |whole| ==> filled == whole;
    return Some(filled);
  }

  /** A span on its own, held to its checksum. From the blob the index describes
      it is the span's own bytes of the stream; from any other it is an error or
      as many bytes with the same checksum. */
  method ExtractSpan(decoder: Decoder, sum: Checksum, blob: Bytes, index: Index, i: nat, ghost stream: Bytes)
    returns (span: Option<Bytes>)
    requires IsDecoder(decoder) && i < |index.checkpoints| && index.checkpoints[i].outOffset <= OutEnd(index, i)
    ensures Describes(decoder, sum, blob, index, stream) ==>
              OutEnd(index, i) <= |stream| && span == Some(stream[index.checkpoints[i].outOffset..OutEnd(index, i)])
    ensures span.Some? ==>
              && |span.value| == OutEnd(index, i) - index.checkpoints[i].outOffset
              && sum(span.value) == index.checkpoints[i].crc
  {
    var c := index.checkpoints[i];
    ghost var described := Describes(decoder, sum, blob, index, stream);
    ghost var whole: Bytes := [];
    if described {
      assert SpanHolds(decoder, sum, blob, index, stream, i);
      whole := stream[c.outOffset..OutEnd(index, i)];
      YieldsGoesForward(decoder, blob, c.inOffset, InEnd(index, blob, i), whole);
    }
    if c.inOffset > |blob| { return None; }
    span := DecodeSpan(decoder, blob, c.inOffset, OutEnd(index, i) - c.outOffset, InEnd(index, blob, i), whole);
    if span.Some? && sum(span.value) != c.crc { return None; }
  }

  // ------------------------------------------------------------ the whole stream

  function Together(spans: seq<Bytes>): Bytes {
    if spans == [] then [] else Together(spans[..|spans| - 1]) + spans[|spans| - 1]
  }

  /** Each span ends where the next begins, the first at the start and the last
      at the end. */
  ghost predicate Tiles(index: Index) {
    && index.checkpoints != [] && index.checkpoints[0].outOffset == 0
    && forall i | 0 <= i < |index.checkpoints| :: index.checkpoints[i].outOffset <= OutEnd(index, i) <= index.length
  }

  lemma DescribedTiles(decoder: Decoder, sum: Checksum, blob: Bytes, index: Index, stream: Bytes)
    requires IsDecoder(decoder) && Describes(decoder, sum, blob, index, stream)
    ensures Tiles(index) && index.length == |stream|
  {
    forall i | 0 <= i < |index.checkpoints| ensures index.checkpoints[i].outOffset <= OutEnd(index, i) <= index.length {
      assert SpanHolds(decoder, sum, blob, index, stream, i);
    }
  }

  /** One span after another they are the stream. */
  lemma {:induction false} SpansAreTheStream(index: Index, stream: Bytes, spans: seq<Bytes>)
    requires Tiles(index) && index.length == |stream| && |spans| <= |index.checkpoints|
    requires forall i | 0 <= i < |spans| :: spans[i] == stream[index.checkpoints[i].outOffset..OutEnd(index, i)]
    ensures spans != [] ==> Together(spans) == stream[..OutEnd(index, |spans| - 1)]
    ensures |spans| == |index.checkpoints| ==> Together(spans) == stream
  {
    if spans != [] {
      var last := |spans| - 1;
      SpansAreTheStream(index, stream, spans[..last]);
      var c := index.checkpoints[last].outOffset;
      assert stream[..c] + stream[c..OutEnd(index, last)] == stream[..OutEnd(index, last)];
    }
  }

  // ------------------------------------------------------------ stored blobs

  lemma {:induction false} TimesRises(i: nat, n: nat, step: nat)
    requires i <= n
    ensures Times(i, step) <= Times(n, step)
  {
    if i < n { TimesRises(i, n - 1, step); }
  }

  /** A window every `step` bytes of an uncompressed blob. */
  predicate IsWindow(c: Checkpoint, n: nat, step: nat) {
    c == Checkpoint(Times(n, step), Times(n, step), 0)
  }

  lemma WindowsTile(index: Index, step: nat)
    requires index.checkpoints != [] && step > 0
    requires forall i | 0 <= i < |index.checkpoints| :: IsWindow(index.checkpoints[i], i, step)
    requires |index.checkpoints| > 1 ==> Times(|index.checkpoints| - 1, step) < index.length
    requires index.length <= Times(|index.checkpoints|, step)
    ensures Tiles(index)
    ensures forall i | 0 <= i < |index.checkpoints| :: OutEnd(index, i) - index.checkpoints[i].outOffset <= step
    ensures index.length > 0 ==> forall i | 0 <= i < |index.checkpoints| ::
            index.checkpoints[i].outOffset < OutEnd(index, i)
  {
    var last := |index.checkpoints| - 1;
    assert IsWindow(index.checkpoints[last], last, step);
    forall i | 0 <= i < |index.checkpoints|
      ensures index.checkpoints[i].outOffset <= OutEnd(index, i) <= index.length
      ensures OutEnd(index, i) - index.checkpoints[i].outOffset <= step
      ensures index.length > 0 ==> index.checkpoints[i].outOffset < OutEnd(index, i)
    {
      assert IsWindow(index.checkpoints[i], i, step);
      if i < last {
        assert IsWindow(index.checkpoints[i + 1], i + 1, step);
        TimesRises(i + 1, last, step);
      }
    }
  }

  /** Windows of `span` bytes, none of them empty but that of an empty blob. */
  method Stored(len: nat, span: nat) returns (index: Index)
    ensures index.length == len && Tiles(index)
    ensures forall i | 0 <= i < |index.checkpoints| ::
              && index.checkpoints[i].inOffset == index.checkpoints[i].outOffset
              && OutEnd(index, i) - index.checkpoints[i].outOffset <= (if span == 0 then 1 else span)
              && (len > 0 ==> index.checkpoints[i].outOffset < OutEnd(index, i))
  {
    var step, at: nat := if span == 0 then 1 else span, 0;
    var cs: seq<Checkpoint> := [];
    while cs == [] || at < len
      invariant at == Times(|cs|, step) && (|cs| > 1 ==> Times(|cs| - 1, step) < len)
      invariant forall i | 0 <= i < |cs| :: IsWindow(cs[i], i, step)
      decreases len - at, |cs| == 0
    {
      cs := cs + [Checkpoint(at, at, 0)];
      at := at + step;
    }
    index := Index(len, cs);
    WindowsTile(index, step);
    assert forall i | 0 <= i < |cs| :: IsWindow(cs[i], i, step);
  }
}
