/** The content store between launches that publish, look up, collect and die. */
module Store {
  import opened Paths

  const TOUCH_AFTER := 24 * 60 * 60
  const RETENTION := 14 * 24 * 60 * 60

  datatype File<B> = File(bytes: seq<B>, atime: int)

  /** A body being written out, unnamed until all of it has been. */
  datatype Writing<D, B> = Writing(name: D, whole: seq<B>, file: nat)

  /** What a lookup read of the file it opened. */
  datatype Stat = Stat(size: nat, atime: int)

  /** A lookup on its way: what it opened, and then what it read of that. */
  datatype Lookup<D> = Lookup(name: D, file: nat, seen: Option<Stat>)

  /** A collection going by what was read before a time, and the name it has
      found stale and is about to remove. One launch collects at a time. */
  datatype Reaping<D> = Reaping(before: int, stale: Option<D>)

  /** `names` is the directory, `files` what has been made, by identity, which
      outlives its name, and `handles` what launches have open. */
  datatype State<D(==), B> = State(
    clock: int, names: map<D, nat>, files: map<nat, File<B>>, writing: map<nat, Writing<D, B>>,
    lookups: map<nat, Lookup<D>>, handles: map<nat, nat>, reaping: Option<Reaping<D>>, next: nat)

  /** A step of some launch, or of the machine. */
  datatype Event<D, B> =
    | Tick(seconds: nat)
    | Begin(name: D, whole: seq<B>)
    | Extend(writing: nat, bytes: nat)
    | Link(writing: nat)
    | Open(name: D)
    | See(lookup: nat, size: nat)
    | Finish(lookup: nat, writable: bool)
    | Read(file: nat)
    | Die(writing: nat)
    | StartReaping
    | Look(name: D)
    | Remove
    | StopReaping
    | PowerLoss(file: nat)

  function Start<D(==), B(==)>(): State<D, B> {
    State(0, map[], map[], map[], map[], map[], None, 0)
  }

  function Opened<D(==), B(==)>(s: State<D, B>, file: nat): State<D, B> {
    s.(handles := s.handles[s.next := file], next := s.next + 1)
  }

  function Touched<D(==), B(==)>(s: State<D, B>, file: nat): State<D, B>
    requires file in s.files
  {
    s.(files := s.files[file := s.files[file].(atime := s.clock)])
  }

  /** An object a lookup finds: by its name, and with the size asked for. */
  predicate Hits<D(==), B(==)>(s: State<D, B>, name: D, size: nat) {
    name in s.names && s.names[name] in s.files && |s.files[s.names[name]].bytes| == size
  }

  /** A lookup opens what has the name, then reads its size and when it was last
      read, and misses if the size is not the one asked for. */
  function Seen<D(==), B(==)>(s: State<D, B>, lookup: nat, size: nat): State<D, B>
    requires lookup in s.lookups
  {
    var l := s.lookups[lookup];
    if l.file !in s.files || |s.files[l.file].bytes| != size then s.(lookups := s.lookups - {lookup})
    else s.(lookups := s.lookups[lookup := l.(seen := Some(Stat(size, s.files[l.file].atime)))])
  }

  predicate HasSeen<D(==), B(==)>(s: State<D, B>, lookup: nat) {
    lookup in s.lookups && s.lookups[lookup].seen.Some? && s.lookups[lookup].file in s.files
  }

  /** Last of all a launch that may write reads the clock and, when what it read
      is a day old, touches the file. */
  function Finished<D(==), B(==)>(s: State<D, B>, lookup: nat, writable: bool): State<D, B>
    requires HasSeen(s, lookup)
  {
    var l := s.lookups[lookup];
    var touched := if writable && s.clock - l.seen.value.atime > TOUCH_AFTER then Touched(s, l.file) else s;
    touched.(lookups := s.lookups - {lookup}, handles := s.handles[lookup := l.file])
  }

  /** Everything written, so it can have its name, unless another has it: then
      the file in hand is as good. */
  function Linked<D(==), B(==)>(s: State<D, B>, writing: nat): State<D, B>
    requires writing in s.writing
  {
    var w := s.writing[writing];
    if w.file !in s.files || s.files[w.file].bytes != w.whole then s
    else
      var done := Opened(s.(writing := s.writing - {writing}), w.file);
      if w.name in s.names then done else done.(names := s.names[w.name := w.file])
  }

  function Extended<D(==), B(==)>(s: State<D, B>, writing: nat, bytes: nat): State<D, B>
    requires writing in s.writing
  {
    var w := s.writing[writing];
    if w.file !in s.files || |s.files[w.file].bytes| + bytes > |w.whole| then s
    else s.(files := s.files[w.file := File(w.whole[..|s.files[w.file].bytes| + bytes], s.clock)])
  }

  predicate IsStale<D(==), B(==)>(s: State<D, B>, name: D, before: int) {
    name in s.names && s.names[name] in s.files && s.files[s.names[name]].atime < before
  }

  function Step<D(==), B(==)>(s: State<D, B>, hash: seq<B> -> D, event: Event<D, B>): State<D, B> {
    match event
    case Tick(seconds) => s.(clock := s.clock + seconds)
    case Begin(name, whole) =>
      if hash(whole) != name || whole == [] then s
      else s.(files := s.files[s.next := File([], s.clock)],
        writing := s.writing[s.next := Writing(name, whole, s.next)],
              next := s.next + 1)
    case Extend(writing, bytes) => if writing in s.writing then Extended(s, writing, bytes) else s
    case Link(writing) => if writing in s.writing then Linked(s, writing) else s
    case Open(name) =>
      if name !in s.names then s
      else s.(lookups := s.lookups[s.next := Lookup(name, s.names[name], None)], next := s.next + 1)
    case See(lookup, size) => if lookup in s.lookups then Seen(s, lookup, size) else s
    case Finish(lookup, writable) => if HasSeen(s, lookup) then Finished(s, lookup, writable) else s
    case Read(file) => if file in s.files then Touched(s, file) else s
    case Die(writing) => s.(writing := s.writing - {writing})
    case StartReaping => if s.reaping.None? then s.(reaping := Some(Reaping(s.clock - RETENTION, None))) else s
    case Look(name) =>
      if s.reaping.None? then s
      else
        var stale := if IsStale(s, name, s.reaping.value.before) then Some(name) else None;
        s.(reaping := Some(s.reaping.value.(stale := stale)))
    case Remove =>
      if s.reaping.None? || s.reaping.value.stale.None? then s
      else s.(names := s.names - {s.reaping.value.stale.value}, reaping := Some(s.reaping.value.(stale := None)))
    case StopReaping => s.(reaping := None)
    case PowerLoss(file) =>
      var off := s.(writing := map[], lookups := map[], handles := map[], reaping := None);
      if file in s.files then off.(files := s.files[file := s.files[file].(bytes := [])]) else off
  }

  function Run<D(==), B(==)>(s: State<D, B>, hash: seq<B> -> D, events: seq<Event<D, B>>): State<D, B> {
    if events == [] then s else Step(Run(s, hash, events[..|events| - 1]), hash, events[|events| - 1])
  }

  // ------------------------------------------------------------ what every step keeps

  /** A file nothing will write to again. */
  ghost predicate IsSettled<D, B>(s: State<D, B>, file: nat) {
    file in s.files && forall w | w in s.writing :: s.writing[w].file != file
  }

  ghost predicate NameHolds<D, B>(s: State<D, B>, hash: seq<B> -> D, name: D) {
    name in s.names ==>
      && IsSettled(s, s.names[name])
      && (s.files[s.names[name]].bytes == [] || hash(s.files[s.names[name]].bytes) == name)
  }

  ghost predicate WritingHolds<D, B>(s: State<D, B>, hash: seq<B> -> D, w: nat) {
    w in s.writing ==>
      var writing := s.writing[w];
      && w < s.next && writing.file in s.files && writing.whole != [] && hash(writing.whole) == writing.name
      && s.files[writing.file].bytes <= writing.whole
      && forall other | other in s.writing && other != w :: s.writing[other].file != writing.file
  }

  ghost predicate HandleHolds<D, B>(s: State<D, B>, h: nat) {
    h in s.handles ==> h < s.next && IsSettled(s, s.handles[h])
  }

  /** What a lookup opened is what had the name, and nothing writes to it. It has
      been read since no earlier than the lookup saw. */
  ghost predicate LookupHolds<D, B>(s: State<D, B>, hash: seq<B> -> D, l: nat) {
    l in s.lookups ==>
      var lookup := s.lookups[l];
      && l < s.next && l !in s.handles && IsSettled(s, lookup.file)
      && (s.files[lookup.file].bytes == [] || hash(s.files[lookup.file].bytes) == lookup.name)
      && (lookup.seen.Some? ==>
            && |s.files[lookup.file].bytes| == lookup.seen.value.size
            && lookup.seen.value.atime <= s.files[lookup.file].atime)
  }

  ghost predicate Inv<D(!new), B>(s: State<D, B>, hash: seq<B> -> D) {
    && (forall name :: NameHolds(s, hash, name))
    && (forall w :: WritingHolds(s, hash, w))
    && (forall h :: HandleHolds(s, h))
    && (forall l :: LookupHolds(s, hash, l))
    && (forall f | f in s.files :: f < s.next && s.files[f].atime <= s.clock)
    && (s.reaping.Some? ==> s.reaping.value.before <= s.clock - RETENTION)
  }

  lemma LinkKeepsInv<D(!new), B>(s: State<D, B>, hash: seq<B> -> D, writing: nat)
    requires Inv(s, hash) && writing in s.writing
    ensures Inv(Linked(s, writing), hash)
  {
    var after := Linked(s, writing);
    assert WritingHolds(s, hash, writing);
    forall name ensures NameHolds(after, hash, name) {
      assert NameHolds(s, hash, name);
    }
    forall w ensures WritingHolds(after, hash, w) {
      assert WritingHolds(s, hash, w);
    }
    forall h ensures HandleHolds(after, h) {
      assert HandleHolds(s, h);
    }
    forall l ensures LookupHolds(after, hash, l) {
      assert LookupHolds(s, hash, l);
    }
  }

  lemma ExtendKeepsInv<D(!new), B>(s: State<D, B>, hash: seq<B> -> D, writing: nat, bytes: nat)
    requires Inv(s, hash) && writing in s.writing
    ensures Inv(Extended(s, writing, bytes), hash)
  {
    var after := Extended(s, writing, bytes);
    assert WritingHolds(s, hash, writing);
    forall name ensures NameHolds(after, hash, name) {
      assert NameHolds(s, hash, name);
    }
    forall w ensures WritingHolds(after, hash, w) {
      assert WritingHolds(s, hash, w);
    }
    forall h ensures HandleHolds(after, h) {
      assert HandleHolds(s, h);
    }
    forall l ensures LookupHolds(after, hash, l) {
      assert LookupHolds(s, hash, l);
    }
  }

  lemma BeginKeepsInv<D(!new), B>(s: State<D, B>, hash: seq<B> -> D, name: D, whole: seq<B>)
    requires Inv(s, hash)
    ensures Inv(Step(s, hash, Begin(name, whole)), hash)
  {
    var after := Step(s, hash, Begin(name, whole));
    forall w | w in s.writing ensures w < s.next && s.writing[w].file in s.files && s.writing[w].file < s.next {
      assert WritingHolds(s, hash, w);
    }
    forall n ensures NameHolds(after, hash, n) {
      assert NameHolds(s, hash, n);
    }
    forall w ensures WritingHolds(after, hash, w) {
      assert WritingHolds(s, hash, w);
    }
    forall h ensures HandleHolds(after, h) {
      assert HandleHolds(s, h);
    }
    forall l ensures LookupHolds(after, hash, l) {
      assert LookupHolds(s, hash, l);
    }
  }

  lemma OpenKeepsInv<D(!new), B>(s: State<D, B>, hash: seq<B> -> D, name: D)
    requires Inv(s, hash)
    ensures Inv(Step(s, hash, Open(name)), hash)
  {
    var after := Step(s, hash, Open(name));
    assert NameHolds(s, hash, name) && HandleHolds(s, s.next);
    forall n ensures NameHolds(after, hash, n) {
      assert NameHolds(s, hash, n);
    }
    forall w ensures WritingHolds(after, hash, w) {
      assert WritingHolds(s, hash, w);
    }
    forall h ensures HandleHolds(after, h) {
      assert HandleHolds(s, h);
    }
    forall l ensures LookupHolds(after, hash, l) {
      assert LookupHolds(s, hash, l);
    }
  }

  lemma SeeKeepsInv<D(!new), B>(s: State<D, B>, hash: seq<B> -> D, lookup: nat, size: nat)
    requires Inv(s, hash) && lookup in s.lookups
    ensures Inv(Seen(s, lookup, size), hash)
  {
    var after := Seen(s, lookup, size);
    assert LookupHolds(s, hash, lookup);
    assert after == s.(lookups := after.lookups);
    forall n ensures NameHolds(after, hash, n) {
      assert NameHolds(s, hash, n) && (n in s.names ==> IsSettled(s, s.names[n]));
    }
    forall w ensures WritingHolds(after, hash, w) {
      assert WritingHolds(s, hash, w);
    }
    forall h ensures HandleHolds(after, h) {
      assert HandleHolds(s, h);
    }
    forall l ensures LookupHolds(after, hash, l) {
      assert LookupHolds(s, hash, l);
    }
  }

  lemma FinishKeepsInv<D(!new), B>(s: State<D, B>, hash: seq<B> -> D, lookup: nat, writable: bool)
    requires Inv(s, hash)
    ensures Inv(Step(s, hash, Finish(lookup, writable)), hash)
  {
    var after := Step(s, hash, Finish(lookup, writable));
    assert LookupHolds(s, hash, lookup);
    forall n ensures NameHolds(after, hash, n) {
      assert NameHolds(s, hash, n);
    }
    forall w ensures WritingHolds(after, hash, w) {
      assert WritingHolds(s, hash, w);
    }
    forall h ensures HandleHolds(after, h) {
      assert HandleHolds(s, h);
    }
    forall l ensures LookupHolds(after, hash, l) {
      assert LookupHolds(s, hash, l);
    }
  }

  lemma StepKeepsInv<D(!new), B>(s: State<D, B>, hash: seq<B> -> D, event: Event<D, B>)
    requires Inv(s, hash)
    ensures Inv(Step(s, hash, event), hash)
  {
    if event.Link? && event.writing in s.writing {
      LinkKeepsInv(s, hash, event.writing);
    } else if event.Extend? && event.writing in s.writing {
      ExtendKeepsInv(s, hash, event.writing, event.bytes);
    } else if event.Begin? {
      BeginKeepsInv(s, hash, event.name, event.whole);
    } else if event.Open? {
      OpenKeepsInv(s, hash, event.name);
    } else if event.See? && event.lookup in s.lookups {
      SeeKeepsInv(s, hash, event.lookup, event.size);
    } else if event.Finish? {
      FinishKeepsInv(s, hash, event.lookup, event.writable);
    } else if event.PowerLoss? {
      PowerLossKeepsInv(s, hash, event.file);
    } else {
      if event.Read? { ReadIsQuiet(s, hash, event.file); } else { OthersAreQuiet(s, hash, event); }
      QuietKeepsInv(s, Step(s, hash, event), hash);
    }
  }

  /** Nothing has been opened or written: files are at most touched, names and
      bodies being written at most gone. */
  ghost predicate IsQuiet<D, B>(s: State<D, B>, after: State<D, B>) {
    && after.lookups == s.lookups && after.handles == s.handles && after.next == s.next && s.clock <= after.clock
    && (forall n | n in after.names :: n in s.names && after.names[n] == s.names[n])
    && (forall w | w in after.writing :: w in s.writing && after.writing[w] == s.writing[w])
    && after.files.Keys == s.files.Keys && (forall f | f in s.files :: IsSameOrTouched(s, after, f))
    && (after.reaping.Some? ==> after.reaping.value.before <= after.clock - RETENTION)
  }

  ghost predicate IsSameOrTouched<D, B>(s: State<D, B>, after: State<D, B>, f: nat) {
    && f in s.files && f in after.files && after.files[f].bytes == s.files[f].bytes
    && (after.files[f].atime == s.files[f].atime || after.files[f].atime == s.clock)
  }

  lemma QuietKeepsInv<D(!new), B>(s: State<D, B>, after: State<D, B>, hash: seq<B> -> D)
    requires Inv(s, hash) && IsQuiet(s, after)
    ensures Inv(after, hash)
  {
    forall name ensures NameHolds(after, hash, name) {
      assert NameHolds(s, hash, name);
    }
    forall w ensures WritingHolds(after, hash, w) {
      assert WritingHolds(s, hash, w);
    }
    forall h ensures HandleHolds(after, h) {
      assert HandleHolds(s, h);
    }
    forall l ensures LookupHolds(after, hash, l) {
      assert LookupHolds(s, hash, l);
    }
    assert forall f | f in after.files :: f in s.files;
  }

  lemma ReadIsQuiet<D(!new), B>(s: State<D, B>, hash: seq<B> -> D, file: nat)
    requires s.reaping.Some? ==> s.reaping.value.before <= s.clock - RETENTION
    ensures IsQuiet(s, Step(s, hash, Read(file)))
  {
  }

  lemma OthersAreQuiet<D(!new), B>(s: State<D, B>, hash: seq<B> -> D, event: Event<D, B>)
    requires s.reaping.Some? ==> s.reaping.value.before <= s.clock - RETENTION
    requires !event.Begin? && !event.Open? && !event.Finish? && !event.Read? && !event.PowerLoss?
    requires event.See? ==> event.lookup !in s.lookups
    requires (event.Link? || event.Extend?) ==> event.writing !in s.writing
    ensures IsQuiet(s, Step(s, hash, event))
  {
  }

  lemma PowerLossKeepsInv<D(!new), B>(s: State<D, B>, hash: seq<B> -> D, file: nat)
    requires Inv(s, hash)
    ensures Inv(Step(s, hash, PowerLoss(file)), hash)
  {
    forall name ensures NameHolds(Step(s, hash, PowerLoss(file)), hash, name) {
      assert NameHolds(s, hash, name);
    }
  }

  lemma {:induction false} RunKeepsInv<D(!new), B>(hash: seq<B> -> D, events: seq<Event<D, B>>)
    ensures Inv(Run(Start<D, B>(), hash, events), hash)
  {
    if events != [] {
      RunKeepsInv(hash, events[..|events| - 1]);
      StepKeepsInv(Run(Start<D, B>(), hash, events[..|events| - 1]), hash, events[|events| - 1]);
    }
  }

  // ------------------------------------------------------------ what a lookup finds

  lemma RunOneMore<D, B>(s: State<D, B>, hash: seq<B> -> D, events: seq<Event<D, B>>, event: Event<D, B>)
    ensures Run(s, hash, events + [event]) == Step(Run(s, hash, events), hash, event)
  {
    assert (events + [event])[..|events|] == events;
  }

  lemma RunOne<D, B>(s: State<D, B>, hash: seq<B> -> D, event: Event<D, B>)
    ensures Run(s, hash, [event]) == Step(s, hash, event)
  {
    assert [event][..0] == [];
  }

  lemma {:induction false} RunOn<D, B>(
      s: State<D, B>, hash: seq<B> -> D, events: seq<Event<D, B>>, more: seq<Event<D, B>>)
    ensures Run(s, hash, events + more) == Run(Run(s, hash, events), hash, more)
    decreases |more|
  {
    if more == [] {
      assert events + more == events;
    } else {
      var less := more[..|more| - 1];
      assert (events + more)[..|events + more| - 1] == events + less;
      RunOn(s, hash, events, less);
    }
  }

  /** A lookup finds what has the name just when it is there with that size, and
      changes nothing when it misses but what is its own. */
  lemma SeesWhatItOpens<D, B>(s: State<D, B>, hash: seq<B> -> D, name: D, size: nat)
    requires s.next !in s.lookups
    ensures var seen := Run(s, hash, [Open(name)] + [See(s.next, size)]);
            && (HasSeen(seen, s.next) <==> Hits(s, name, size))
            && seen.names == s.names && seen.files == s.files && seen.handles == s.handles
            && (HasSeen(seen, s.next) ==> seen.lookups[s.next].file == s.names[name])
  {
    RunOne(s, hash, Open(name));
    RunOneMore(s, hash, [Open(name)], See(s.next, size));
  }

  /** In every run, whoever dies whenever and whatever happens between its steps,
      a lookup that hits hands out bytes of the size asked for that hash to their
      name. */
  lemma HitsHoldWhatTheyName<D(!new), B>(hash: seq<B> -> D, events: seq<Event<D, B>>, l: nat, writable: bool)
    requires var s := Run(Start<D, B>(), hash, events); HasSeen(s, l) && s.lookups[l].seen.value.size > 0
    ensures var s := Run(Start<D, B>(), hash, events);
            var after := Step(s, hash, Finish(l, writable));
            && l in after.handles && after.handles[l] in after.files
            && var bytes := after.files[after.handles[l]].bytes;
               |bytes| == s.lookups[l].seen.value.size && hash(bytes) == s.lookups[l].name
  {
    RunKeepsInv(hash, events);
    assert LookupHolds(Run(Start<D, B>(), hash, events), hash, l);
  }

  /** A handle has the file it had, as it was. */
  predicate StaysOpen<D(==), B(==)>(s: State<D, B>, after: State<D, B>, h: nat) {
    && h in s.handles && h in after.handles && after.handles[h] == s.handles[h]
    && s.handles[h] in s.files && s.handles[h] in after.files
    && after.files[s.handles[h]].bytes == s.files[s.handles[h]].bytes
  }

  lemma OthersLeaveOpen<D(!new), B>(s: State<D, B>, hash: seq<B> -> D, event: Event<D, B>, h: nat)
    requires (forall f | f in s.files :: f < s.next) && h in s.handles && HandleHolds(s, h)
    requires h !in s.lookups && !event.Extend? && !event.Link? && !event.PowerLoss?
    ensures StaysOpen(s, Step(s, hash, event), h)
  {
  }

  /** What is open stays as it is, whatever is published over it or removed from
      under it, for as long as the machine runs. */
  lemma OpenFilesStay<D(!new), B>(hash: seq<B> -> D, events: seq<Event<D, B>>, event: Event<D, B>, h: nat)
    requires h in Run(Start<D, B>(), hash, events).handles && !event.PowerLoss?
    ensures var s := Run(Start<D, B>(), hash, events); StaysOpen(s, Step(s, hash, event), h)
  {
    RunKeepsInv(hash, events);
    var s := Run(Start<D, B>(), hash, events);
    assert HandleHolds(s, h);
    if event.Extend? || event.Link? {
    } else {
      assert LookupHolds(s, hash, h);
      OthersLeaveOpen(s, hash, event, h);
    }
  }

  // ------------------------------------------------------------ what a collection leaves

  /** A collection has looked at the name, found its object stale and is about to
      remove it. */
  predicate IsInHand<D(==), B(==)>(s: State<D, B>, name: D) {
    s.reaping.Some? && s.reaping.value.stale == Some(name)
  }

  /** The name leads to a file read no earlier than `floor`, and no collection has
      it in hand. */
  ghost predicate IsSafe<D, B>(s: State<D, B>, name: D, file: nat, floor: int) {
    && name in s.names && s.names[name] == file && file in s.files
    && floor <= s.files[file].atime && !IsInHand(s, name)
  }

  ghost predicate KeepsPower<D, B>(events: seq<Event<D, B>>) {
    forall e | e in events :: !e.PowerLoss?
  }

  lemma StepKeepsSafe<D(!new), B>(s: State<D, B>, hash: seq<B> -> D, event: Event<D, B>, name: D, file: nat,
                                  floor: int)
    requires Inv(s, hash) && IsSafe(s, name, file, floor) && !event.PowerLoss?
    requires s.clock <= floor + RETENTION
    ensures IsSafe(Step(s, hash, event), name, file, floor)
  {
  }

  lemma ClockRises<D, B>(s: State<D, B>, hash: seq<B> -> D, event: Event<D, B>)
    ensures s.clock <= Step(s, hash, event).clock
  {
  }

  /** It stays so until that is longer ago than the retention. */
  lemma {:induction false} RunKeepsSafe<D(!new), B>(
      s: State<D, B>, hash: seq<B> -> D, events: seq<Event<D, B>>, name: D, file: nat, floor: int)
    requires Inv(s, hash) && IsSafe(s, name, file, floor) && KeepsPower(events)
    requires Run(s, hash, events).clock <= floor + RETENTION
    ensures IsSafe(Run(s, hash, events), name, file, floor)
    ensures Inv(Run(s, hash, events), hash)
  {
    if events != [] {
      var less, last := events[..|events| - 1], events[|events| - 1];
      assert last in events && forall e | e in less :: e in events;
      ClockRises(Run(s, hash, less), hash, last);
      RunKeepsSafe(s, hash, less, name, file, floor);
      StepKeepsSafe(Run(s, hash, less), hash, last, name, file, floor);
      StepKeepsInv(Run(s, hash, less), hash, last);
    }
  }

  // ------------------------------------------------------------ from where a lookup ends

  const KEPT := RETENTION - TOUCH_AFTER

  ghost predicate StillThere<D, B>(s: State<D, B>, name: D, file: nat) {
    name in s.names && s.names[name] == file
  }

  /** What a lookup that may write hands out keeps its name for thirteen days,
      whatever launches do and with the machine's power on. */
  ghost predicate OutlivesItsHit<D(!new), B(!new)>(s: State<D, B>, hash: seq<B> -> D, l: nat)
    requires HasSeen(s, l)
  {
    forall more: seq<Event<D, B>> |
      KeepsPower(more) && Run(s, hash, [Finish(l, true)] + more).clock <= s.clock + KEPT ::
      StillThere(Run(s, hash, [Finish(l, true)] + more), s.lookups[l].name, s.lookups[l].file)
  }

  lemma FinishIsSafe<D(!new), B>(s: State<D, B>, hash: seq<B> -> D, l: nat)
    requires Inv(s, hash) && HasSeen(s, l)
    requires StillThere(s, s.lookups[l].name, s.lookups[l].file) && !IsInHand(s, s.lookups[l].name)
    ensures IsSafe(Finished(s, l, true), s.lookups[l].name, s.lookups[l].file, s.clock - TOUCH_AFTER)
  {
    assert LookupHolds(s, hash, l);
  }

  lemma FinishThen<D, B>(s: State<D, B>, hash: seq<B> -> D, l: nat, more: seq<Event<D, B>>)
    requires HasSeen(s, l)
    ensures Run(s, hash, [Finish(l, true)] + more) == Run(Finished(s, l, true), hash, more)
  {
    RunOn(s, hash, [Finish(l, true)], more);
    RunOne(s, hash, Finish(l, true));
  }

  /** A lookup's last step keeps what it hands out if and only if the name still
      leads to it then and no collection has the name in hand. */
  lemma HitsSurviveFromTheEnd<D(!new), B(!new)>(hash: seq<B> -> D, events: seq<Event<D, B>>, l: nat)
    requires HasSeen(Run(Start<D, B>(), hash, events), l)
    ensures var s := Run(Start<D, B>(), hash, events);
            OutlivesItsHit(s, hash, l) <==>
              StillThere(s, s.lookups[l].name, s.lookups[l].file) && !IsInHand(s, s.lookups[l].name)
  {
    var s := Run(Start<D, B>(), hash, events);
    var name, file := s.lookups[l].name, s.lookups[l].file;
    RunKeepsInv(hash, events);
    if StillThere(s, name, file) && !IsInHand(s, name) {
      FinishIsSafe(s, hash, l);
      StepKeepsInv(s, hash, Finish(l, true));
      forall more: seq<Event<D, B>> |
        KeepsPower(more) && Run(s, hash, [Finish(l, true)] + more).clock <= s.clock + KEPT
        ensures StillThere(Run(s, hash, [Finish(l, true)] + more), name, file)
      {
        FinishThen(s, hash, l, more);
        RunKeepsSafe(Finished(s, l, true), hash, more, name, file, s.clock - TOUCH_AFTER);
      }
    } else {
      GoneAfterTheEnd(s, hash, l);
    }
  }

  lemma GoneAfterTheEnd<D(!new), B(!new)>(s: State<D, B>, hash: seq<B> -> D, l: nat)
    requires HasSeen(s, l)
    requires !StillThere(s, s.lookups[l].name, s.lookups[l].file) || IsInHand(s, s.lookups[l].name)
    ensures !OutlivesItsHit(s, hash, l)
  {
    var more: seq<Event<D, B>> := if IsInHand(s, s.lookups[l].name) then [Remove] else [];
    FinishThen(s, hash, l, more);
    if more != [] {
      RunOne(Finished(s, l, true), hash, Remove);
    }
    assert !StillThere(Run(s, hash, [Finish(l, true)] + more), s.lookups[l].name, s.lookups[l].file);
  }

  // ------------------------------------------------------------ from where it begins

  /** However the steps of others come between its own, a lookup that opens the
      object now and is done within so many seconds keeps it. */
  ghost predicate IsKeptFromNow<D(!new), B(!new)>(s: State<D, B>, hash: seq<B> -> D, name: D, within: nat)
    requires name in s.names
  {
    forall mid: seq<Event<D, B>> | DoneWithin(s, hash, name, mid, within) ::
      OutlivesItsHit(Run(s, hash, [Open(name)] + mid), hash, s.next)
  }

  /** The lookup that opens the name now has seen what it opened, and neither the
      power nor so many seconds have gone. */
  ghost predicate DoneWithin<D, B>(
      s: State<D, B>, hash: seq<B> -> D, name: D, mid: seq<Event<D, B>>, within: nat)
  {
    var now := Run(s, hash, [Open(name)] + mid);
    KeepsPower(mid) && HasSeen(now, s.next) && now.clock <= s.clock + within
  }

  /** An open lookup goes on about the file it opened. */
  ghost predicate IsAbout<D, B>(s: State<D, B>, l: nat, name: D, file: nat) {
    l < s.next && (l in s.lookups ==> s.lookups[l].name == name && s.lookups[l].file == file)
  }

  lemma StepStaysAbout<D, B>(
      s: State<D, B>, hash: seq<B> -> D, event: Event<D, B>, l: nat, name: D, file: nat)
    requires IsAbout(s, l, name, file)
    ensures IsAbout(Step(s, hash, event), l, name, file)
  {
  }

  lemma {:induction false} StaysAbout<D, B>(
      s: State<D, B>, hash: seq<B> -> D, events: seq<Event<D, B>>, l: nat, name: D, file: nat)
    requires IsAbout(s, l, name, file)
    ensures IsAbout(Run(s, hash, events), l, name, file)
  {
    if events != [] {
      StaysAbout(s, hash, events[..|events| - 1], l, name, file);
      StepStaysAbout(Run(s, hash, events[..|events| - 1]), hash, events[|events| - 1], l, name, file);
    }
  }

  lemma OpenThen<D, B>(s: State<D, B>, hash: seq<B> -> D, name: D, mid: seq<Event<D, B>>)
    ensures Run(s, hash, [Open(name)] + mid) == Run(Step(s, hash, Open(name)), hash, mid)
  {
    RunOn(s, hash, [Open(name)], mid);
    RunOne(s, hash, Open(name));
  }

  lemma YoungIsKept<D(!new), B(!new)>(
      hash: seq<B> -> D, events: seq<Event<D, B>>, name: D, mid: seq<Event<D, B>>, within: nat)
    requires var s := Run(Start<D, B>(), hash, events);
             && name in s.names && s.names[name] in s.files && !IsInHand(s, name)
             && s.clock + within <= s.files[s.names[name]].atime + RETENTION
             && DoneWithin(s, hash, name, mid, within)
    ensures var s := Run(Start<D, B>(), hash, events);
            OutlivesItsHit(Run(s, hash, [Open(name)] + mid), hash, s.next)
  {
    var s := Run(Start<D, B>(), hash, events);
    var looking, file := Step(s, hash, Open(name)), s.names[name];
    RunKeepsInv(hash, events);
    StepKeepsInv(s, hash, Open(name));
    OpenThen(s, hash, name, mid);
    RunKeepsSafe(looking, hash, mid, name, file, s.files[file].atime);
    StaysAbout(looking, hash, mid, s.next, name, file);
    RunOn(Start<D, B>(), hash, events, [Open(name)] + mid);
    HitsSurviveFromTheEnd(hash, events + ([Open(name)] + mid), s.next);
  }

  /** A collection begins after so many seconds. */
  function Beginning<D, B>(within: nat): seq<Event<D, B>> {
    [StopReaping] + [Tick(within)] + [StartReaping]
  }

  /** It does, looks and removes. */
  function Sweep<D, B>(name: D, within: nat): seq<Event<D, B>> {
    Beginning(within) + [Look(name)] + [Remove]
  }

  /** What others can do to lose it: what has the name in hand removes it, or a
      collection does that begins once it is old enough. */
  function Losing<D(==), B(==)>(s: State<D, B>, name: D, within: nat): seq<Event<D, B>> {
    if IsInHand(s, name) then [Remove] else Sweep(name, within)
  }

  lemma BeginsToSweep<D, B>(s: State<D, B>, hash: seq<B> -> D, within: nat)
    ensures Run(s, hash, Beginning(within)) ==
            s.(clock := s.clock + within, reaping := Some(Reaping(s.clock + within - RETENTION, None)))
  {
    var stopped := s.(reaping := None);
    RunOne(s, hash, StopReaping);
    assert Run(s, hash, [StopReaping]) == stopped;
    RunOneMore(s, hash, [StopReaping], Tick(within));
    assert Run(s, hash, [StopReaping] + [Tick(within)]) == stopped.(clock := s.clock + within);
    RunOneMore(s, hash, [StopReaping] + [Tick(within)], StartReaping);
  }

  lemma SweepLosesIt<D, B>(s: State<D, B>, hash: seq<B> -> D, name: D, within: nat)
    requires name in s.names && s.names[name] in s.files
    requires s.files[s.names[name]].atime + RETENTION < s.clock + within
    ensures Run(s, hash, Sweep(name, within)) ==
            s.(clock := s.clock + within, names := s.names - {name},
               reaping := Some(Reaping(s.clock + within - RETENTION, None)))
  {
    BeginsToSweep(s, hash, within);
    assert IsStale(Run(s, hash, Beginning(within)), name, s.clock + within - RETENTION);
    RunOneMore(s, hash, Beginning(within), Look(name));
    RunOneMore(s, hash, Beginning(within) + [Look(name)], Remove);
  }

  /** Everything is as it was but the clock and the name, which is gone. */
  ghost predicate IsLost<D, B>(s: State<D, B>, after: State<D, B>, name: D, within: nat) {
    && name !in after.names && !IsInHand(after, name) && after.clock <= s.clock + within
    && after.files == s.files && after.lookups == s.lookups
  }

  lemma LosingLoses<D(!new), B(!new)>(s: State<D, B>, hash: seq<B> -> D, name: D, within: nat)
    requires name in s.names && s.names[name] in s.files
    requires IsInHand(s, name) || s.files[s.names[name]].atime + RETENTION < s.clock + within
    ensures IsLost(s, Run(s, hash, Losing(s, name, within)), name, within) && KeepsPower(Losing(s, name, within))
  {
    if IsInHand(s, name) {
      RunOne(s, hash, Remove);
    } else {
      SweepLosesIt(s, hash, name, within);
    }
  }

  lemma OthersLoseIt<D(!new), B(!new)>(s: State<D, B>, hash: seq<B> -> D, name: D, size: nat, within: nat)
    returns (mid: seq<Event<D, B>>)
    requires Inv(s, hash) && Hits(s, name, size)
    requires IsInHand(s, name) || s.files[s.names[name]].atime + RETENTION < s.clock + within
    ensures DoneWithin(s, hash, name, mid, within)
    ensures var now := Run(s, hash, [Open(name)] + mid);
            && name !in now.names && !IsInHand(now, name)
            && now.lookups[s.next].name == name && now.lookups[s.next].file == s.names[name]
  {
    var looking := Step(s, hash, Open(name));
    var losing := Losing(looking, name, within);
    LosingLoses(looking, hash, name, within);
    mid := losing + [See(s.next, size)];
    OpenThen(s, hash, name, mid);
    RunOneMore(looking, hash, losing, See(s.next, size));
  }

  /** In every run, an object is kept for thirteen days from a lookup that opens
      it now and is done within so many seconds, whatever happens meanwhile, if
      and only if no collection has it in hand now and it will not have gone
      unread past the retention by then. */
  lemma HitsSurviveFromTheOpen<D(!new), B(!new)>(
      hash: seq<B> -> D, events: seq<Event<D, B>>, name: D, size: nat, within: nat)
    requires Hits(Run(Start<D, B>(), hash, events), name, size)
    ensures var s := Run(Start<D, B>(), hash, events);
            IsKeptFromNow(s, hash, name, within) <==>
              !IsInHand(s, name) && s.clock + within <= s.files[s.names[name]].atime + RETENTION
  {
    var s := Run(Start<D, B>(), hash, events);
    RunKeepsInv(hash, events);
    if !IsInHand(s, name) && s.clock + within <= s.files[s.names[name]].atime + RETENTION {
      forall mid: seq<Event<D, B>> | DoneWithin(s, hash, name, mid, within)
        ensures OutlivesItsHit(Run(s, hash, [Open(name)] + mid), hash, s.next)
      {
        YoungIsKept(hash, events, name, mid, within);
      }
    } else {
      var mid := OthersLoseIt(s, hash, name, size, within);
      GoneAfterTheEnd(Run(s, hash, [Open(name)] + mid), hash, s.next);
    }
  }

  // ------------------------------------------------------------ runs that come to that

  /** Published once and read by nobody since. */
  function Publishing<D, B>(name: D, whole: seq<B>): seq<Event<D, B>> {
    [Begin(name, whole)] + [Extend(0, |whole|)] + [Link(0)]
  }

  lemma IsPublished<D, B>(hash: seq<B> -> D, name: D, whole: seq<B>)
    requires whole != [] && hash(whole) == name
    ensures var s := Run(Start<D, B>(), hash, Publishing(name, whole));
            && s.clock == 0 && s.reaping.None? && name in s.names && s.names[name] in s.files
            && s.files[s.names[name]] == File(whole, 0)
  {
    var start := Start<D, B>();
    var begun := Step(start, hash, Begin(name, whole));
    assert Run(start, hash, []) == start;
    assert [] + Publishing(name, whole)[..1] == [Begin(name, whole)];
    RunOneMore(start, hash, [], Begin(name, whole));
    RunOneMore(start, hash, [Begin(name, whole)], Extend(0, |whole|));
    RunOneMore(start, hash, [Begin(name, whole)] + [Extend(0, |whole|)], Link(0));
    assert begun.writing[0] == Writing(name, whole, 0) && begun.files[0] == File([], 0);
    var extended := Step(begun, hash, Extend(0, |whole|));
    assert whole[..|whole|] == whole;
    assert extended.files[0] == File(whole, 0) && extended.writing == begun.writing;
  }

  /** Unread for a second more than the retention. */
  function LeftAlone<D, B>(name: D, whole: seq<B>): seq<Event<D, B>> {
    Publishing(name, whole) + [Tick(RETENTION + 1)]
  }

  lemma IsLeftAlone<D, B>(hash: seq<B> -> D, name: D, whole: seq<B>)
    requires whole != [] && hash(whole) == name
    ensures var s := Run(Start<D, B>(), hash, LeftAlone(name, whole));
            && s.clock == RETENTION + 1 && s.reaping.None? && name in s.names && s.names[name] in s.files
            && s.files[s.names[name]] == File(whole, 0)
  {
    IsPublished(hash, name, whole);
    RunOneMore(Start<D, B>(), hash, Publishing(name, whole), Tick(RETENTION + 1));
  }

  /** Every body can come to be opened with a collection about to remove it: it has
      gone unread past the retention, a collection reads its age, and only then
      is it looked up. */
  lemma InHandAtTheOpen<D(!new), B(!new)>(hash: seq<B> -> D, name: D, whole: seq<B>)
    returns (events: seq<Event<D, B>>)
    requires whole != [] && hash(whole) == name
    ensures var s := Run(Start<D, B>(), hash, events);
            Hits(s, name, |whole|) && IsInHand(s, name) && !IsKeptFromNow(s, hash, name, 0)
  {
    IsLeftAlone(hash, name, whole);
    RunOneMore(Start<D, B>(), hash, LeftAlone(name, whole), StartReaping);
    RunOneMore(Start<D, B>(), hash, LeftAlone(name, whole) + [StartReaping], Look(name));
    events := LeftAlone(name, whole) + [StartReaping] + [Look(name)];
    HitsSurviveFromTheOpen(hash, events, name, |whole|, 0);
  }

  /** And to be collected while it is being looked up: no collection is under way
      when it is opened, none has it in hand when the lookup ends and no time has
      passed, and yet the name is gone by then. */
  lemma LookedAtBetween<D(!new), B(!new)>(hash: seq<B> -> D, name: D, whole: seq<B>)
    returns (events: seq<Event<D, B>>, mid: seq<Event<D, B>>)
    requires whole != [] && hash(whole) == name
    ensures var s := Run(Start<D, B>(), hash, events);
            && Hits(s, name, |whole|) && s.reaping.None? && DoneWithin(s, hash, name, mid, 0)
            && var now := Run(s, hash, [Open(name)] + mid);
               && !IsInHand(now, name) && name !in now.names && !OutlivesItsHit(now, hash, s.next)
  {
    IsLeftAlone(hash, name, whole);
    events := LeftAlone(name, whole);
    var s := Run(Start<D, B>(), hash, events);
    RunKeepsInv(hash, events);
    mid := OthersLoseIt(s, hash, name, |whole|, 0);
    GoneAfterTheEnd(Run(s, hash, [Open(name)] + mid), hash, s.next);
  }
}
