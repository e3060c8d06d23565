/** A blob's data frames decoded one after another, whatever chunks the blob
    comes in. */
module Stream {
  import opened Paths
  import opened Frames

  const FRAME_HEADER_PEEK := 8

  function Joined(chunks: seq<Bytes>): Bytes {
    if chunks == [] then [] else chunks[0] + Joined(chunks[1..])
  }

  /** How far a frame has got once some of its bytes are in: what has come out of
      it, and what it wants next. `header` tells the bytes that are wanted before
      the frame counts as started. */
  datatype Progress = Progress(out: Bytes, next: Next)

  datatype Next = Wants(more: nat, header: bool) | Ends | Refuses

  /** A decoder that is fed a frame piece by piece, each as long as it asks for. */
  type Coder = Bytes -> Progress

  /** It begins with a header, asks for something when it asks, and takes nothing
      back. */
  ghost predicate IsCoder(coder: Coder) {
    && coder([]).next.Wants? && coder([]).next.header
    && (forall b: Bytes | coder(b).next.Wants? :: coder(b).next.more > 0)
    && forall b: Bytes, c: Bytes | coder(b).next.Wants? && |c| == coder(b).next.more :: KeepsOutput(coder, b, c)
  }

  predicate KeepsOutput(coder: Coder, b: Bytes, c: Bytes) {
    coder(b).out <= coder(b + c).out
  }

  /** The frame at the start of `rest`, of which `taken` has been fed in. */
  function Fed(coder: Coder, taken: Bytes, rest: Bytes): Decoded
    decreases |rest|
  {
    match coder(taken).next
    case Ends => Frame(|taken|, coder(taken).out)
    case Refuses => Corrupt
    case Wants(n, _) =>
      if 0 < n <= |rest| then Fed(coder, taken + rest[..n], rest[n..]) else Corrupt
  }

  /** What feeding it a whole frame gives. */
  function Whole(coder: Coder): Decoder {
    b => Fed(coder, [], b)
  }

  /** A frame takes no more than there is, and what has come out of part of it is
      the beginning of what comes out of it. */
  lemma {:induction false} FedIsInside(coder: Coder, taken: Bytes, rest: Bytes)
    requires IsCoder(coder)
    ensures var frame := Fed(coder, taken, rest);
            frame.Frame? ==> |taken| <= frame.taken <= |taken| + |rest| && coder(taken).out <= frame.output
    decreases |rest|
  {
    var next := coder(taken).next;
    if next.Wants? && next.more <= |rest| {
      FedIsInside(coder, taken + rest[..next.more], rest[next.more..]);
      assert KeepsOutput(coder, taken, rest[..next.more]);
    }
  }

  lemma WholeIsDecoder(coder: Coder)
    requires IsCoder(coder)
    ensures IsDecoder(Whole(coder))
  {
    forall b | Whole(coder)(b).Frame? ensures TakesSome(Whole(coder)(b).taken, b) {
      var n := coder([]).next.more;
      assert [] + b[..n] == b[..n];
      FedIsInside(coder, b[..n], b[n..]);
    }
  }

  /** The chunks a producer hands over, read out one after another. */
  class ChunkReader {
    var chunks: seq<Bytes>
    var current: Bytes
    var taken: nat

    constructor (chunks: seq<Bytes>)
      ensures Valid() && Rest() == Joined(chunks)
    {
      this.chunks := chunks;
      current := [];
      taken := 0;
    }

    predicate Valid()
      reads this
    {
      taken <= |current|
    }

    /** Everything still to be read. */
    function Rest(): Bytes
      reads this
      requires Valid()
    {
      current[taken..] + Joined(chunks)
    }

    /** What of the current chunk is left, or of the next that has anything. */
    method FillBuf() returns (available: Bytes)
      requires Valid()
      modifies this
      ensures Valid() && Rest() == old(Rest()) && available == current[taken..]
      ensures available == [] ==> Rest() == []
    {
      while taken == |current|
        invariant Valid() && Rest() == old(Rest())
        decreases |chunks|, |current| - taken
      {
        if chunks == [] { return []; }
        assert current[taken..] == [];
        current, chunks, taken := chunks[0], chunks[1..], 0;
        assert current[0..] == current;
      }
      return current[taken..];
    }

    method Consume(amount: nat)
      requires Valid()
      modifies this`taken
      ensures Valid() && taken == if old(taken) + amount <= |current| then old(taken) + amount else |current|
      ensures amount <= |old(Rest())| && old(taken) + amount <= |current| ==> Rest() == old(Rest())[amount..]
    {
      taken := if taken + amount <= |current| then taken + amount else |current|;
    }

    method Read(n: nat) returns (bytes: Bytes)
      requires Valid()
      modifies this
      ensures Valid() && |bytes| <= n && old(Rest()) == bytes + Rest()
      ensures n > 0 && bytes == [] ==> Rest() == []
    {
      var available := FillBuf();
      var take := if |available| <= n then |available| else n;
      bytes := available[..take];
      Consume(take);
      assert available == bytes + available[take..];
    }
  }

  lemma TakenFromTheFront(all: Bytes, front: Bytes, take: nat)
    requires front <= all && take <= |front|
    ensures all == front[..take] + all[take..]
  {
  }

  ghost predicate IsSplit(all: Bytes, front: Bytes, rest: Bytes) {
    all == front + rest
  }

  lemma SplitsFurther(all: Bytes, front: Bytes, rest: Bytes, more: Bytes, after: Bytes)
    requires IsSplit(all, front, rest) && rest == more + after
    ensures IsSplit(all, front + more, after)
  {
  }

  /** A reader whose next bytes can be seen before they are taken. */
  class Peeked {
    const inner: ChunkReader
    const prefix: array<Byte>
    var start: nat
    var end: nat

    constructor (inner: ChunkReader)
      requires inner.Valid()
      ensures this.inner == inner && Valid() && fresh(prefix) && Rest() == inner.Rest()
    {
      this.inner := inner;
      prefix := new Byte[FRAME_HEADER_PEEK](_ => 0);
      start, end := 0, 0;
    }

    predicate Valid()
      reads this, inner
    {
      inner.Valid() && prefix.Length == FRAME_HEADER_PEEK && start <= end <= prefix.Length
    }

    /** What was looked at and not consumed, and what was never looked at. */
    function Rest(): Bytes
      reads this, inner, prefix
      requires Valid()
    {
      prefix[start..end] + inner.Rest()
    }

    /** Moves what was looked at to the front. */
    method CopyWithin()
      requires Valid()
      modifies prefix, `start, `end
      ensures Valid() && start == 0 && prefix[..end] == old(prefix[start..end])
    {
      var from := start;
      ghost var looked := prefix[start..end];
      for i := 0 to end - start
        invariant start == from && end == old(end)
        invariant forall k | 0 <= k < i :: prefix[k] == looked[k]
        invariant forall k | i <= k < end - start :: prefix[start + k] == looked[k]
      {
        prefix[i] := prefix[from + i];
      }
      start, end := 0, end - from;
      assert prefix[..end] == looked;
    }

    /** What comes next, as many bytes as asked for where there are as many.
        None are taken. */
    method Peek(n: nat) returns (header: Bytes)
      requires Valid() && n <= FRAME_HEADER_PEEK
      modifies this, prefix, inner
      ensures Valid() && Rest() == old(Rest())
      ensures header <= Rest() && (n <= |header| || header == Rest())
    {
      CopyWithin();
      assert Rest() == old(Rest());
      while end < n
        invariant Valid() && start == 0 && Rest() == old(Rest())
        decreases n - end
      {
        ghost var looked := prefix[..end];
        var bytes := inner.Read(n - end);
        assert prefix[..end] == looked;
        if bytes == [] { break; }
        Append(bytes);
        assert old(Rest()) == looked + (bytes + inner.Rest());
      }
      header := prefix[start..end];
    }

    method Append(bytes: Bytes)
      requires Valid() && start == 0 && end + |bytes| <= prefix.Length
      modifies prefix, `end
      ensures Valid() && end == old(end) + |bytes| && prefix[..end] == old(prefix[..end]) + bytes
    {
      ghost var looked := prefix[..end];
      for i := 0 to |bytes|
        invariant end == old(end) && prefix[..end] == looked
        invariant prefix[end..end + i] == bytes[..i]
      {
        prefix[end + i] := bytes[i];
      }
      end := end + |bytes|;
      assert prefix[..end] == prefix[..old(end)] + prefix[old(end)..end];
    }

    method FillBuf() returns (available: Bytes)
      requires Valid()
      modifies this, inner
      ensures Valid() && Rest() == old(Rest())
      ensures available == if start < end then prefix[start..end] else inner.current[inner.taken..]
      ensures available <= Rest() && (available == [] ==> Rest() == [])
    {
      if start < end { return prefix[start..end]; }
      start, end := 0, 0;
      available := inner.FillBuf();
    }

    /** Takes bytes last handed out. */
    method Consume(amount: nat)
      requires Valid() && amount <= if start < end then end - start else |inner.current| - inner.taken
      modifies this, inner
      ensures Valid() && amount <= |old(Rest())| && Rest() == old(Rest())[amount..]
    {
      if start < end {
        start := start + amount;
        return;
      }
      inner.Consume(amount);
    }

    method Read(n: nat) returns (bytes: Bytes)
      requires Valid()
      modifies this, inner
      ensures Valid() && |bytes| <= n && old(Rest()) == bytes + Rest()
      ensures n > 0 && bytes == [] ==> Rest() == []
    {
      ghost var all := Rest();
      var available := FillBuf();
      var take := if |available| <= n then |available| else n;
      bytes := available[..take];
      TakenFromTheFront(all, available, take);
      Consume(take);
      assert Rest() == all[take..];
    }

    /** The next `n` bytes however they come, or whether there were fewer. */
    method ReadExact(n: nat) returns (ok: bool, bytes: Bytes)
      requires Valid()
      modifies this, inner
      ensures Valid() && (ok <==> n <= |old(Rest())|)
      ensures ok ==> |bytes| == n && old(Rest()) == bytes + Rest()
    {
      bytes := [];
      while |bytes| < n
        invariant Valid() && |bytes| <= n && IsSplit(old(Rest()), bytes, Rest())
        decreases n - |bytes|
      {
        ghost var before := Rest();
        var more := Read(n - |bytes|);
        if more == [] { return false, []; }
        SplitsFurther(old(Rest()), bytes, before, more, Rest());
        bytes := bytes + more;
      }
      return true, bytes;
    }

    /** Discards `n` bytes, or tells that there were fewer. */
    method Skip(n: nat) returns (ok: bool)
      requires Valid()
      modifies this, inner
      ensures Valid() && (ok <==> n <= |old(Rest())|)
      ensures ok ==> Rest() == old(Rest())[n..]
    {
      var left: nat := n;
      while left > 0
        invariant Valid() && left <= n && n - left <= |old(Rest())| && Rest() == old(Rest())[n - left..]
      {
        var bytes := FillBuf();
        var available := if |bytes| <= left then |bytes| else left;
        if available == 0 { return false; }
        Consume(available);
        left := left - available;
      }
      return true;
    }
  }

  /** Between frames, in a frame of which `taken` has been fed in and `handed`
      bytes given out, where a frame broke off, or at an end: the blob's, or a
      frame that would not start. */
  datatype Stage = Between | Decoding(taken: Bytes, handed: nat) | Broken | Done

  datatype ReadResult = Got(bytes: Bytes) | Failed

  datatype Outcome = Further | AtAnEnd | WouldNotStart

  lemma HeaderTells(rest: Bytes, header: Bytes)
    requires header <= rest && (FRAME_HEADER_PEEK <= |header| || header == rest)
    ensures SkippableLen(header) == SkippableLen(rest)
  {
    if |header| >= 8 { assert header[..4] == rest[..4] && header[4..8] == rest[4..8]; }
  }

  /** The frame at the start of `frame` is fed in as far as `taken`, and `rest`
      follows. */
  ghost predicate IsFed(coder: Coder, frame: Bytes, taken: Bytes, rest: Bytes) {
    && frame == taken + rest && SkippableLen(frame).None?
    && Fed(coder, taken, rest) == Fed(coder, [], frame)
  }

  lemma FedFurther(coder: Coder, frame: Bytes, taken: Bytes, rest: Bytes, piece: Bytes, after: Bytes)
    requires IsCoder(coder) && IsFed(coder, frame, taken, rest)
    requires coder(taken).next.Wants? && |piece| == coder(taken).next.more && rest == piece + after
    ensures IsFed(coder, frame, taken + piece, after) && coder(taken).out <= coder(taken + piece).out
  {
    assert frame == taken + piece + after;
    assert rest[..|piece|] == piece && rest[|piece|..] == after;
    assert KeepsOutput(coder, taken, piece);
  }

  /** Up to `pos` the blob's frames yield `out`. All of that has been handed out,
      and of the frame being decoded as much as its stage says. */
  ghost predicate InStep(coder: Coder, blob: Bytes, pos: nat, out: Bytes, given: Bytes, stage: Stage, rest: Bytes)
    requires IsDecoder(Whole(coder))
  {
    && pos <= |blob| && Yields(Whole(coder), blob, 0, pos, out)
    && (stage == Between ==> rest == blob[pos..] && given == out)
    && (stage == Done ==> given == out)
    && (stage == Broken ==> pos < |blob| && NextFrame(Whole(coder), blob, pos).None?)
    && (stage.Decoding? ==>
          && pos < |blob| && IsFed(coder, blob[pos..], stage.taken, rest)
          && stage.handed <= |coder(stage.taken).out|
          && given == out + coder(stage.taken).out[..stage.handed])
  }

  /** A frame that has been fed in to its end is over, and the next one starts
      where it stopped. */
  lemma FrameIsOver(coder: Coder, blob: Bytes, pos: nat, out: Bytes, given: Bytes, taken: Bytes, rest: Bytes)
    requires IsCoder(coder) && IsDecoder(Whole(coder)) && coder(taken).next == Ends
    requires InStep(coder, blob, pos, out, given, Decoding(taken, |coder(taken).out|), rest)
    ensures pos < pos + |taken| <= |blob|
    ensures InStep(coder, blob, pos + |taken|, given, given, Between, rest)
  {
    OneFrameMore(Whole(coder), blob, pos, out);
    assert taken != [];
    assert NextFrame(Whole(coder), blob, pos) == Some((pos + |taken|, coder(taken).out));
    assert given == out + coder(taken).out;
    assert blob[pos + |taken|..] == blob[pos..][|taken|..] == rest;
  }

  /** Handed out is always the beginning of what the blob decodes to, if it does. */
  lemma GivenIsABeginning(coder: Coder, blob: Bytes, pos: nat, out: Bytes, given: Bytes, stage: Stage, rest: Bytes,
                          all: Bytes)
    requires IsCoder(coder) && IsDecoder(Whole(coder))
    requires InStep(coder, blob, pos, out, given, stage, rest) && stage != Broken
    requires Yields(Whole(coder), blob, 0, |blob|, all)
    ensures given <= all
  {
    YieldsTheRest(Whole(coder), blob, 0, pos, |blob|, out, all);
    if stage.Decoding? {
      FedIsInside(coder, stage.taken, rest);
    }
  }

  /** Reads a blob's data frames as one stream and steps over the others. */
  class MultiFrameZstd {
    const source: Peeked
    const coder: Coder
    var stage: Stage
    /** The blob, where the frame being read starts, what the frames before it
        yield, and what has been handed out. */
    ghost const blob: Bytes
    ghost var pos: nat
    ghost var out: Bytes
    ghost var given: Bytes

    constructor (source: Peeked, coder: Coder)
      requires source.Valid() && IsCoder(coder)
      ensures Valid() && blob == source.Rest() && given == [] && stage == Between
      ensures this.source == source && this.coder == coder
    {
      WholeIsDecoder(coder);
      this.source, this.coder, stage := source, coder, Between;
      blob, pos, out, given := source.Rest(), 0, [], [];
    }

    ghost predicate Valid()
      reads this, source, source.inner, source.prefix
    {
      && IsCoder(coder) && IsDecoder(Whole(coder)) && source.Valid()
      && InStep(coder, blob, pos, out, given, stage, source.Rest())
    }

    /** Steps over the skippable frame here. */
    method StepOver(len: nat) returns (ok: bool)
      requires Valid() && stage == Between && pos < |blob| && SkippableLen(blob[pos..]) == Some(len)
      modifies this`stage, this`pos, source, source.inner, source.prefix
      ensures Valid() && given == old(given)
      ensures if ok then pos == old(pos) + len && stage == Between
              else pos == old(pos) && stage == Done && NextFrame(Whole(coder), blob, pos).None?
    {
      OneFrameMore(Whole(coder), blob, pos, out);
      ok := source.Skip(len);
      if ok {
        assert out + [] == out && blob[pos..][len..] == blob[pos + len..];
        pos := pos + len;
      } else {
        stage := Done;
      }
    }

    /** Feeds the decoder the next piece it asks for. */
    method Feed() returns (ok: bool)
      requires Valid() && stage.Decoding? && coder(stage.taken).next.Wants?
      modifies this`stage, source, source.inner, source.prefix
      ensures source.Valid()
      ensures ok ==> Valid() && stage.Decoding? && stage.handed == old(stage.handed)
      ensures ok ==> |source.Rest()| < |old(source.Rest())|
      ensures !ok ==> stage == old(stage) && NextFrame(Whole(coder), blob, pos).None?
    {
      var taken := stage.taken;
      ghost var rest := source.Rest();
      var piece;
      ok, piece := source.ReadExact(coder(taken).next.more);
      if ok {
        FedFurther(coder, blob[pos..], taken, rest, piece, source.Rest());
        stage := Decoding(taken + piece, stage.handed);
      }
    }

    /** Starts on the data frame here: its header is fed in. */
    method StartOn() returns (ok: bool)
      requires Valid() && stage == Between && pos < |blob| && SkippableLen(blob[pos..]).None?
      modifies this`stage, source, source.inner, source.prefix
      ensures Valid()
      ensures if ok then stage.Decoding?
              else stage == Done && NextFrame(Whole(coder), blob, pos).None?
    {
      stage := Decoding([], 0);
      assert blob[pos..] == [] + blob[pos..];
      ok := true;
      while ok && coder(stage.taken).next.Wants? && coder(stage.taken).next.header
        invariant source.Valid() && stage.Decoding? && stage.handed == 0
        invariant ok ==> Valid()
        invariant !ok ==> NextFrame(Whole(coder), blob, pos).None?
        decreases ok, |source.Rest()|
      {
        ok := Feed();
      }
      if !ok || coder(stage.taken).next.Refuses? {
        ok, stage := false, Done;
      }
    }

    /** Steps over the frame here, or starts on it. */
    method NextIn() returns (outcome: Outcome)
      requires Valid() && stage == Between
      modifies this`stage, this`pos, source, source.inner, source.prefix
      ensures Valid() && given == old(given)
      ensures outcome == AtAnEnd ==> pos == |blob| && stage == Done
      ensures outcome == WouldNotStart ==> pos < |blob| && NextFrame(Whole(coder), blob, pos).None? && stage == Done
      ensures outcome == Further ==> (stage == Between && old(pos) < pos) || (stage.Decoding? && pos == old(pos))
    {
      var header := source.Peek(FRAME_HEADER_PEEK);
      HeaderTells(source.Rest(), header);
      if header == [] {
        stage := Done;
        return AtAnEnd;
      }
      var skip, ok := SkippableLen(header), false;
      if skip.Some? {
        ok := StepOver(skip.value);
      } else {
        ok := StartOn();
      }
      return if ok then Further else WouldNotStart;
    }

    /** Up to `n` of the bytes that have come out of the frame and not been handed
        out. */
    method HandOut(n: nat) returns (bytes: Bytes)
      requires Valid() && stage.Decoding?
      modifies this`stage, this`given
      ensures Valid() && stage.Decoding? && stage.taken == old(stage.taken) && given == old(given) + bytes
      ensures |bytes| <= n && (|bytes| < n ==> stage.handed == |coder(stage.taken).out|)
    {
      var ready, from := coder(stage.taken).out, stage.handed;
      var to := if from + n <= |ready| then from + n else |ready|;
      assert ready[..from] + ready[from..to] == ready[..to];
      bytes := ready[from..to];
      given, stage := given + bytes, Decoding(stage.taken, to);
    }

    /** How much has come out of the frame and not been handed out. */
    ghost function Ready(): int
      reads this
      requires stage.Decoding?
    {
      |coder(stage.taken).out| - stage.handed
    }

    /** Feeds the decoder until it has `n` bytes ready or the frame is over. */
    method FeedFor(n: nat) returns (ok: bool)
      requires Valid() && stage.Decoding?
      modifies this`stage, source, source.inner, source.prefix
      ensures Valid()
      ensures ok ==> stage.Decoding? && (Ready() >= n || coder(stage.taken).next == Ends)
      ensures !ok ==> stage == Broken
    {
      ok := true;
      while ok && coder(stage.taken).next.Wants? && |coder(stage.taken).out| - stage.handed < n
        invariant source.Valid() && stage.Decoding?
        invariant if ok then Valid() else NextFrame(Whole(coder), blob, pos).None?
        decreases ok, |source.Rest()|
      {
        ok := Feed();
      }
      if !ok || (coder(stage.taken).next.Refuses? && |coder(stage.taken).out| - stage.handed < n) {
        ok, stage := false, Broken;
      }
    }

    /** Up to `n` bytes more of the frame being decoded, none only at its end. */
    method Decode(n: nat) returns (result: ReadResult)
      requires Valid() && stage.Decoding? && n > 0
      modifies this`stage, this`given, source, source.inner, source.prefix
      ensures Valid()
      ensures result.Got? ==> |result.bytes| <= n && given == old(given) + result.bytes && stage.Decoding?
      ensures result == Got([]) ==> coder(stage.taken).next == Ends && Ready() == 0
      ensures result.Failed? ==> given == old(given) && stage == Broken
    {
      var ok := FeedFor(n);
      if !ok { return Failed; }
      var bytes := HandOut(n);
      return Got(bytes);
    }

    /** Leaves a frame that is over. */
    method Leave()
      requires Valid() && stage.Decoding? && coder(stage.taken).next == Ends && Ready() == 0
      modifies this`stage, this`pos, this`out
      ensures Valid() && stage == Between && pos > old(pos)
    {
      ghost var rest := source.Rest();
      FrameIsOver(coder, blob, pos, out, given, stage.taken, rest);
      ghost var end := pos + |stage.taken|;
      pos, out, stage := end, given, Between;
      assert source.Rest() == rest;
    }

    /** Up to `n` bytes more of the stream. Nothing more comes only at the end,
        once everything the frames decode to has been handed out, and a failure
        means there is a frame here that does not end or decode. */
    method Read(n: nat) returns (result: ReadResult)
      requires Valid()
      modifies this, source, source.inner, source.prefix
      ensures Valid() && given == old(given) + if result.Failed? then [] else result.bytes
      ensures result.Got? ==> |result.bytes| <= n
      ensures n > 0 && old(stage) != Done && result == Got([]) ==> pos == |blob| && out == given && stage == Done
      ensures result.Failed? ==> pos < |blob| && NextFrame(Whole(coder), blob, pos).None? && stage in {Done, Broken}
      ensures old(stage) == Done ==> stage == Done && result == Got([])
    {
      if n == 0 { return Got([]); }
      while stage != Done
        invariant Valid() && given == old(given) && (stage == Done <==> old(stage) == Done)
        decreases |blob| - pos, if stage.Decoding? then 0 else 1
      {
        if stage == Broken { return Failed; }
        if stage == Between {
          var outcome := NextIn();
          if outcome == AtAnEnd { return Got([]); }
          if outcome == WouldNotStart { return Failed; }
        } else {
          result := Decode(n);
          if result != Got([]) { return; }
          Leave();
        }
      }
      return Got([]);
    }
  }

  lemma OneFrameMore(decoder: Decoder, blob: Bytes, pos: nat, out: Bytes)
    requires IsDecoder(decoder) && Yields(decoder, blob, 0, pos, out) && pos < |blob|
    ensures var next := NextFrame(decoder, blob, pos);
            next.Some? ==> pos < next.value.0 <= |blob| && Yields(decoder, blob, 0, next.value.0, out + next.value.1)
  {
    var next := NextFrame(decoder, blob, pos);
    if next.Some? {
      NextFrameIsFurther(decoder, blob, pos);
      assert next.value.1[|next.value.1|..] == [];
      assert YieldsNext(decoder, blob, pos, next.value.0, next.value.1);
      YieldsBoth(decoder, blob, 0, pos, next.value.0, out, next.value.1);
    }
  }
}
