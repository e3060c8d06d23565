/** A zstd blob frame by frame. */
module Frames {
  import opened Paths

  /** What decoding the one data frame at the start of some bytes gives: how
      many of them it took and what came out, or an error. */
  datatype Decoded = Frame(taken: nat, output: Bytes) | Corrupt

  type Decoder = Bytes -> Decoded

  /** A frame takes at least one byte and no more than there are. */
  ghost predicate IsDecoder(decoder: Decoder) {
    forall b: Bytes | decoder(b).Frame? :: TakesSome(decoder(b).taken, b)
  }

  predicate TakesSome(taken: nat, b: Bytes) {
    0 < taken <= |b|
  }

  function LittleEndian(b: Bytes): nat
    requires |b| == 4
  {
    b[0] as int + 0x100 * (b[1] as int) + 0x1_0000 * (b[2] as int) + 0x100_0000 * (b[3] as int)
  }

  const SKIPPABLE_FIRST := 0x184D_2A50
  const SKIPPABLE_LAST := 0x184D_2A5F

  /** The length of a skippable frame with its header of eight bytes (section
      3.1.2 of RFC 8878), or `None` before a data frame. */
  function SkippableLen(b: Bytes): (len: Option<nat>)
    ensures len.Some? ==> len.value >= 8
  {
    if |b| < 8 || !(SKIPPABLE_FIRST <= LittleEndian(b[..4]) <= SKIPPABLE_LAST) then None
    else Some(8 + LittleEndian(b[4..8]))
  }

  /** Byte by byte: one of sixteen magic numbers, which differ in their first byte
      only and are stored the lowest byte first, and the length after it. */
  lemma SkippableTold(b: Bytes)
    ensures SkippableLen(b).Some? <==>
            |b| >= 8 && 0x50 <= b[0] <= 0x5F && b[1] == 0x2A && b[2] == 0x4D && b[3] == 0x18
    ensures SkippableLen(b).Some? ==>
              SkippableLen(b).value == 8 + b[4] as nat + 0x100 * b[5] as nat + 0x1_0000 * b[6] as nat
                                       + 0x100_0000 * b[7] as nat
  {
    if |b| >= 8 {
      assert b[..4][0] == b[0] && b[..4][1] == b[1] && b[..4][2] == b[2] && b[..4][3] == b[3];
      assert b[4..8][0] == b[4] && b[4..8][1] == b[5] && b[4..8][2] == b[6] && b[4..8][3] == b[7];
    }
  }

  /** Where the frame at `pos` ends and what comes out of it: nothing, from a
      skippable one. `None` when it does not end inside the blob or does not
      decode. */
  function NextFrame(decoder: Decoder, blob: Bytes, pos: nat): Option<(nat, Bytes)>
    requires pos < |blob|
  {
    match SkippableLen(blob[pos..])
    case Some(len) => if pos + len <= |blob| then Some((pos + len, [])) else None
    case None =>
      match decoder(blob[pos..])
      case Frame(taken, output) => if pos + taken <= |blob| then Some((pos + taken, output)) else None
      case Corrupt => None
  }

  /** The frames from `pos` up to the boundary `end` decode to `out`. */
  ghost predicate Yields(decoder: Decoder, blob: Bytes, pos: nat, end: nat, out: Bytes)
    requires IsDecoder(decoder)
    decreases |blob| - pos
  {
    || (pos == end <= |blob| && out == [])
    || (pos < |blob| && YieldsNext(decoder, blob, pos, end, out))
  }

  ghost predicate YieldsNext(decoder: Decoder, blob: Bytes, pos: nat, end: nat, out: Bytes)
    requires IsDecoder(decoder) && pos < |blob|
    decreases |blob| - pos, 0
  {
    var next := NextFrame(decoder, blob, pos);
    NextFrameIsFurther(decoder, blob, pos);
    next.Some? && next.value.1 <= out && Yields(decoder, blob, next.value.0, end, out[|next.value.1|..])
  }

  lemma NextFrameIsFurther(decoder: Decoder, blob: Bytes, pos: nat)
    requires IsDecoder(decoder) && pos < |blob|
    ensures NextFrame(decoder, blob, pos).Some? ==> pos < NextFrame(decoder, blob, pos).value.0 <= |blob|
  {
    assert decoder(blob[pos..]).Frame? ==> TakesSome(decoder(blob[pos..]).taken, blob[pos..]);
  }

  lemma {:induction false} YieldsGoesForward(decoder: Decoder, blob: Bytes, pos: nat, end: nat, out: Bytes)
    requires IsDecoder(decoder) && Yields(decoder, blob, pos, end, out)
    ensures pos <= end <= |blob|
    decreases |blob| - pos
  {
    if !(pos == end <= |blob| && out == []) {
      var next := NextFrame(decoder, blob, pos).value;
      NextFrameIsFurther(decoder, blob, pos);
      YieldsGoesForward(decoder, blob, next.0, end, out[|next.1|..]);
    }
  }

  /** What two runs of frames yield, one after the other. */
  lemma {:induction false} YieldsBoth(decoder: Decoder, blob: Bytes, a: nat, b: nat, c: nat, x: Bytes, y: Bytes)
    requires IsDecoder(decoder) && Yields(decoder, blob, a, b, x) && Yields(decoder, blob, b, c, y)
    ensures Yields(decoder, blob, a, c, x + y)
    decreases |blob| - a
  {
    if a == b && x == [] {
      assert x + y == y;
    } else {
      var next := NextFrame(decoder, blob, a).value;
      NextFrameIsFurther(decoder, blob, a);
      YieldsBoth(decoder, blob, next.0, b, c, x[|next.1|..], y);
      assert (x + y)[|next.1|..] == x[|next.1|..] + y;
      assert YieldsNext(decoder, blob, a, c, x + y);
    }
  }

  /** Frames are met one way only: past a boundary, what is left is what that
      boundary yields. */
  lemma {:induction false} YieldsTheRest(decoder: Decoder, blob: Bytes, a: nat, b: nat, c: nat, x: Bytes, all: Bytes)
    requires IsDecoder(decoder) && Yields(decoder, blob, a, b, x) && Yields(decoder, blob, a, c, all) && b <= c
    ensures x <= all && Yields(decoder, blob, b, c, all[|x|..])
    decreases |blob| - a
  {
    if a == b && x == [] {
      assert all[0..] == all;
    } else {
      var next := NextFrame(decoder, blob, a).value;
      NextFrameIsFurther(decoder, blob, a);
      YieldsGoesForward(decoder, blob, next.0, b, x[|next.1|..]);
      YieldsTheRest(decoder, blob, next.0, b, c, x[|next.1|..], all[|next.1|..]);
      assert x == next.1 + x[|next.1|..] && all == next.1 + all[|next.1|..];
      assert all[|next.1|..][|x[|next.1|..]|..] == all[|x|..];
    }
  }
}
