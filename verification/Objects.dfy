/** What becomes of the store's objects: published, emptied by a crash, left behind
    by a launch that dies, and read. */
module Objects {
  import opened Store

  // ------------------------------------------------------------ publishing and crashing

  /** A name that leads to a file with nothing in it. */
  ghost predicate IsEmptied<D, B>(s: State<D, B>, name: D) {
    name in s.names && s.names[name] in s.files && s.files[s.names[name]].bytes == []
  }

  /** One launch's steps in publishing a body. */
  function Publication<D, B>(name: D, whole: seq<B>, writing: nat): seq<Event<D, B>> {
    [Begin(name, whole)] + [Extend(writing, |whole|)] + [Link(writing)]
  }

  /** The body is in the file, which has the name if no other had it. */
  ghost predicate IsPublishedAs<D, B>(s: State<D, B>, after: State<D, B>, name: D, whole: seq<B>) {
    && after.names == (if name in s.names then s.names else s.names[name := s.next])
    && s.next !in s.files && after.files == s.files[s.next := File(whole, s.clock)]
    && s.next + 1 in after.handles && after.handles[s.next + 1] == s.next
    && after.writing == s.writing
  }

  lemma Publishes<D, B>(s: State<D, B>, hash: seq<B> -> D, name: D, whole: seq<B>)
    requires whole != [] && hash(whole) == name && s.next !in s.writing && s.next !in s.files
    ensures IsPublishedAs(s, Run(s, hash, Publication(name, whole, s.next)), name, whole)
  {
    var w := s.next;
    RunOne(s, hash, Begin(name, whole));
    RunOneMore(s, hash, [Begin(name, whole)], Extend(w, |whole|));
    RunOneMore(s, hash, [Begin(name, whole)] + [Extend(w, |whole|)], Link(w));
    var begun := Step(s, hash, Begin(name, whole));
    assert begun.writing[w] == Writing(name, whole, w) && begun.files[w] == File([], s.clock);
    var extended := Step(begun, hash, Extend(w, |whole|));
    assert whole[..|whole|] == whole;
    assert extended.files == s.files[w := File(whole, s.clock)] && extended.writing == begun.writing
           && extended.names == s.names;
    assert begun.writing - {w} == s.writing;
  }

  /** In every state launches can come to, publishing leaves the launch with the
      whole body open, and every lookup from then on finds one of its size unless
      a file of another size has the name already, which publishing does not
      replace. */
  lemma PublishedIsFound<D(!new), B>(s: State<D, B>, hash: seq<B> -> D, name: D, whole: seq<B>)
    requires Inv(s, hash) && whole != [] && hash(whole) == name
    ensures var after := Run(s, hash, Publication(name, whole, s.next));
            && IsPublishedAs(s, after, name, whole)
            && (Hits(after, name, |whole|) <==> name !in s.names || Hits(s, name, |whole|))
            && (IsEmptied(after, name) <==> IsEmptied(s, name))
  {
    assert WritingHolds(s, hash, s.next) && NameHolds(s, hash, name);
    Publishes(s, hash, name, whole);
  }

  /** A crash can empty any object there is, ends every launch's work and takes no
      name. */
  lemma ACrashEmpties<D(!new), B>(s: State<D, B>, hash: seq<B> -> D, name: D)
    requires Inv(s, hash) && name in s.names
    ensures var after := Step(s, hash, PowerLoss(s.names[name]));
            && IsEmptied(after, name) && after.names == s.names
            && after.writing == map[] && after.lookups == map[] && after.handles == map[] && after.reaping.None?
            && forall f | f in s.files && f != s.names[name] :: f in after.files && after.files[f] == s.files[f]
  {
    assert NameHolds(s, hash, name);
  }

  /** The name is gone at some point of the run. */
  ghost predicate IsRemovedIn<D, B>(s: State<D, B>, hash: seq<B> -> D, events: seq<Event<D, B>>, name: D) {
    exists k | 0 <= k <= |events| :: name !in Run(s, hash, events[..k]).names
  }

  lemma StepKeepsEmptied<D(!new), B>(s: State<D, B>, hash: seq<B> -> D, event: Event<D, B>, name: D)
    requires Inv(s, hash) && IsEmptied(s, name)
    ensures var after := Step(s, hash, event); IsEmptied(after, name) || name !in after.names
  {
    assert NameHolds(s, hash, name);
    match event {
      case Extend(w, _) => assert WritingHolds(s, hash, w);
      case Begin(_, _) => assert s.names[name] < s.next;
      case _ =>
    }
  }

  lemma {:induction false} RunKeepsInvFrom<D(!new), B>(s: State<D, B>, hash: seq<B> -> D, events: seq<Event<D, B>>)
    requires Inv(s, hash)
    ensures Inv(Run(s, hash, events), hash)
  {
    if events != [] {
      RunKeepsInvFrom(s, hash, events[..|events| - 1]);
      StepKeepsInv(Run(s, hash, events[..|events| - 1]), hash, events[|events| - 1]);
    }
  }

  /** An emptied object misses, whatever is published meanwhile, until a collection
      has taken its name. */
  lemma {:induction false} EmptiedUntilRemoved<D(!new), B>(
      s: State<D, B>, hash: seq<B> -> D, events: seq<Event<D, B>>, name: D)
    requires Inv(s, hash) && IsEmptied(s, name) && !IsRemovedIn(s, hash, events, name)
    ensures IsEmptied(Run(s, hash, events), name)
    ensures forall size | size > 0 :: !Hits(Run(s, hash, events), name, size)
    decreases |events|
  {
    if events != [] {
      var less := events[..|events| - 1];
      forall k | 0 <= k <= |less| ensures name in Run(s, hash, less[..k]).names {
        assert less[..k] == events[..k];
      }
      EmptiedUntilRemoved(s, hash, less, name);
      RunKeepsInvFrom(s, hash, less);
      StepKeepsEmptied(Run(s, hash, less), hash, events[|events| - 1], name);
      assert events[..|events|] == events;
    }
  }

  /** Only a collection takes a name, and only one it found stale. */
  lemma OnlyACollectionRemoves<D, B>(s: State<D, B>, hash: seq<B> -> D, event: Event<D, B>, name: D)
    requires name in s.names && name !in Step(s, hash, event).names
    ensures event.Remove? && IsInHand(s, name)
    ensures Step(s, hash, event).files == s.files && Step(s, hash, event).handles == s.handles
  {
  }

  // ------------------------------------------------------------ dying and reading

  /** Nothing leads to the file or writes to it. */
  ghost predicate IsAbandoned<D(!new), B>(s: State<D, B>, file: nat) {
    && file in s.files && file < s.next
    && (forall name | name in s.names :: s.names[name] != file)
    && (forall w | w in s.writing :: s.writing[w].file != file)
    && (forall l | l in s.lookups :: s.lookups[l].file != file)
    && (forall h | h in s.handles :: s.handles[h] != file)
  }

  lemma WritingLeavesAbandoned<D(!new), B>(s: State<D, B>, hash: seq<B> -> D, event: Event<D, B>, file: nat)
    requires IsAbandoned(s, file) && (event.Begin? || event.Extend? || event.Link?)
    ensures IsAbandoned(Step(s, hash, event), file)
  {
  }

  lemma LookingLeavesAbandoned<D(!new), B>(s: State<D, B>, hash: seq<B> -> D, event: Event<D, B>, file: nat)
    requires IsAbandoned(s, file) && (event.Open? || event.See? || event.Finish?)
    ensures IsAbandoned(Step(s, hash, event), file)
  {
  }

  lemma StepLeavesAbandoned<D(!new), B>(s: State<D, B>, hash: seq<B> -> D, event: Event<D, B>, file: nat)
    requires IsAbandoned(s, file)
    ensures IsAbandoned(Step(s, hash, event), file)
  {
    if event.Begin? || event.Extend? || event.Link? {
      WritingLeavesAbandoned(s, hash, event, file);
    } else if event.Open? || event.See? || event.Finish? {
      LookingLeavesAbandoned(s, hash, event, file);
    }
  }

  lemma {:induction false} StaysAbandoned<D(!new), B>(
      s: State<D, B>, hash: seq<B> -> D, events: seq<Event<D, B>>, file: nat)
    requires IsAbandoned(s, file)
    ensures IsAbandoned(Run(s, hash, events), file)
  {
    if events != [] {
      StaysAbandoned(s, hash, events[..|events| - 1], file);
      StepLeavesAbandoned(Run(s, hash, events[..|events| - 1]), hash, events[|events| - 1], file);
    }
  }

  /** A launch that dies before its body has a name leaves nothing behind: no name
      ever leads to what it had written, and nobody has it open. */
  lemma DyingLeavesNothing<D(!new), B>(s: State<D, B>, hash: seq<B> -> D, w: nat, events: seq<Event<D, B>>)
    requires Inv(s, hash) && w in s.writing
    ensures IsAbandoned(Run(s, hash, [Die(w)] + events), s.writing[w].file)
  {
    var file := s.writing[w].file;
    assert WritingHolds(s, hash, w);
    forall name | name in s.names ensures s.names[name] != file { assert NameHolds(s, hash, name); }
    forall l | l in s.lookups ensures s.lookups[l].file != file { assert LookupHolds(s, hash, l); }
    forall h | h in s.handles ensures s.handles[h] != file { assert HandleHolds(s, h); }
    RunOn(s, hash, [Die(w)], events);
    RunOne(s, hash, Die(w));
    StaysAbandoned(Step(s, hash, Die(w)), hash, events, file);
  }

  /** The name leads to its object still at the end of every run that keeps the
      power and takes no longer than the retention. */
  ghost predicate IsKeptOnceRead<D(!new), B(!new)>(s: State<D, B>, hash: seq<B> -> D, name: D)
    requires name in s.names
  {
    forall more: seq<Event<D, B>> |
      KeepsPower(more) && Run(s, hash, [Read(s.names[name])] + more).clock <= s.clock + RETENTION ::
      StillThere(Run(s, hash, [Read(s.names[name])] + more), name, s.names[name])
  }

  /** What is read is kept for the retention from then on, unless a collection has
      found it stale already. */
  lemma WhatIsReadIsKept<D(!new), B(!new)>(s: State<D, B>, hash: seq<B> -> D, name: D)
    requires Inv(s, hash) && name in s.names
    ensures IsKeptOnceRead(s, hash, name) <==> !IsInHand(s, name)
  {
    var file := s.names[name];
    var read := Step(s, hash, Read(file));
    assert NameHolds(s, hash, name);
    RunOne(s, hash, Read(file));
    if IsInHand(s, name) {
      var more: seq<Event<D, B>> := [Remove];
      RunOn(s, hash, [Read(file)], more);
      RunOne(read, hash, Remove);
      assert KeepsPower(more) && !StillThere(Run(s, hash, [Read(file)] + more), name, file);
    } else {
      StepKeepsInv(s, hash, Read(file));
      forall more: seq<Event<D, B>> |
        KeepsPower(more) && Run(s, hash, [Read(file)] + more).clock <= s.clock + RETENTION
        ensures StillThere(Run(s, hash, [Read(file)] + more), name, file)
      {
        RunOn(s, hash, [Read(file)], more);
        RunKeepsSafe(read, hash, more, name, file, s.clock);
      }
    }
  }
}
