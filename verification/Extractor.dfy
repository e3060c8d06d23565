/** The extractor that walks the layers, changing its disk entry by entry. */
module Extractor {
  import opened Paths
  import opened Layers
  import S = Stopping
  import W = Walk

  function Beneath(disk: W.Disk, dir: Path): set<Path> {
    set p | p in disk && Under(dir, p)
  }

  /** The name directly in `dir` on the way to `path`. */
  function ChildOf(dir: Path, path: Path): Path
    requires Under(dir, path)
  {
    path[..|dir| + 1]
  }

  function Children(disk: W.Disk, dir: Path): set<Path> {
    set p | p in disk && Under(dir, p) && |p| == |dir| + 1
  }

  lemma ChildHolds(disk: W.Disk, dir: Path, path: Path)
    requires W.DiskShape(disk) && path in disk && Under(dir, path)
    ensures ChildOf(dir, path) in Children(disk, dir) && AtOrUnder(ChildOf(dir, path), path)
  {
    var c := ChildOf(dir, path);
    assert c[..|dir|] == path[..|dir|];
    if c != path { assert W.IsDirectory(disk, c); }
  }

  lemma SmallerBeneath(before: W.Disk, after: W.Disk, dir: Path, child: Path)
    requires after.Keys <= before.Keys && child in before && Under(dir, child)
    ensures |Beneath(after, child)| < |Beneath(before, dir)|
  {
    var small, big := Beneath(after, child), Beneath(before, dir);
    forall p | p in small ensures p in big - {child} { UnderIsTransitive(dir, child, p); }
    assert small <= big - {child};
    Fewer(small, big - {child});
  }

  lemma {:induction false} Fewer(a: set<Path>, b: set<Path>)
    requires a <= b
    ensures |a| <= |b|
  {
    if a != {} {
      var x :| x in a;
      Fewer(a - {x}, b - {x});
    }
  }

  /** `dir` with the children of `seen` that are not to be kept gone. */
  function Sifted(disk: W.Disk, written: set<Path>, dir: Path, seen: set<Path>): W.Disk {
    map p | p in disk && (Under(dir, p) && ChildOf(dir, p) in seen ==>
                            W.ClearKeeps(disk, written, ChildOf(dir, p))) :: disk[p]
  }

  /** The same, with what the kept children of all but `pending` hold cleared. */
  function Cleared(disk: W.Disk, written: set<Path>, dir: Path, pending: set<Path>): W.Disk {
    map p | p in disk && (Under(dir, p) ==>
                            && W.ClearKeeps(disk, written, ChildOf(dir, p))
                            && (ChildOf(dir, p) in pending || W.ClearKeeps(disk, written, p))) :: disk[p]
  }

  /** What holds a path to keep is kept. */
  lemma KeptHolder(disk: W.Disk, written: set<Path>, p: Path, a: Path)
    requires W.IsDirectory(disk, a) && Under(a, p) && W.ClearKeeps(disk, written, p)
    ensures W.ClearKeeps(disk, written, a)
  {
  }

  lemma SameChild(dir: Path, a: Path, p: Path)
    requires Under(dir, a) && Under(a, p)
    ensures Under(dir, p) && ChildOf(dir, a) == ChildOf(dir, p)
  {
    UnderIsTransitive(dir, a, p);
    assert p[..|a|][..|dir| + 1] == p[..|dir| + 1];
  }

  lemma ClearedHasShape(disk: W.Disk, written: set<Path>, dir: Path, pending: set<Path>)
    requires W.DiskShape(disk)
    ensures W.DiskShape(Cleared(disk, written, dir, pending))
  {
    var left := Cleared(disk, written, dir, pending);
    forall p, a | p in left && a != [] && Under(a, p) ensures W.IsDirectory(left, a) {
      assert W.IsDirectory(disk, a);
      if Under(dir, a) {
        SameChild(dir, a, p);
        if W.ClearKeeps(disk, written, p) { KeptHolder(disk, written, p, a); }
      }
    }
  }

  predicate AreSubdirectories(disk: W.Disk, dir: Path, some: set<Path>) {
    forall c | c in some :: c in disk && Under(dir, c) && |c| == |dir| + 1 && W.IsDirectory(disk, c)
  }

  /** Clearing one of the directories kept leaves the others pending. */
  lemma GoingInto(was: W.Disk, written: set<Path>, dir: Path, keep: set<Path>, path: Path)
    requires W.DiskShape(was) && path in keep && AreSubdirectories(was, dir, keep)
    ensures AreSubdirectories(was, dir, keep - {path})
    ensures var disk := Cleared(was, written, dir, keep);
            && W.DiskShape(disk) && |Beneath(disk, path)| < |Beneath(was, dir)|
            && W.ClearLower(disk, written, path) == Cleared(was, written, dir, keep - {path})
  {
    assert keep == (keep - {path}) + {path};
    ClearedHasShape(was, written, dir, keep);
    SmallerBeneath(was, Cleared(was, written, dir, keep), dir, path);
    ClearOne(was, written, dir, keep - {path}, path);
  }

  class RootfsExtractor {
    var disk: W.Disk
    /** What the layer being walked has placed. */
    var written: set<Path>

    constructor ()
      ensures disk == map[] && written == {}
    {
      disk := map[];
      written := {};
    }

    /** Lists a directory and drops what is not to be kept of it: the directories
        that are still have to be gone into. */
    method SiftChildren(dir: Path) returns (keep: set<Path>)
      requires W.DiskShape(disk)
      modifies this`disk
      ensures disk == Cleared(old(disk), written, dir, keep)
      ensures AreSubdirectories(old(disk), dir, keep)
    {
      ghost var was := disk;
      var listing := Children(disk, dir);
      keep := {};
      ghost var seen: set<Path> := {};
      while listing != {}
        invariant listing + seen == Children(was, dir) && listing !! seen
        invariant disk == Sifted(was, written, dir, seen)
        invariant keep == set c | c in seen && W.IsDirectory(was, c) && W.ClearKeeps(was, written, c)
        decreases listing
      {
        var path :| path in listing;
        listing, seen := listing - {path}, seen + {path};
        SiftOne(was, written, dir, seen - {path}, path);
        if W.IsDirectory(disk, path) && (path in written || W.WroteUnder(written, path)) {
          keep := keep + {path};
        } else if path !in written {
          disk := W.RemoveAny(disk, path);
        }
      }
      SiftedIsPending(was, written, dir, keep);
    }

    /** Clears a directory of what lower layers left in it: lists it, drops what
        is not to be kept, and goes into the directories that are. */
    method ClearLowerLayers(dir: Path)
      requires W.DiskShape(disk)
      modifies this`disk
      ensures disk == W.ClearLower(old(disk), written, dir) && W.DiskShape(disk)
      decreases |Beneath(disk, dir)|
    {
      ghost var was := disk;
      var keep := SiftChildren(dir);
      while keep != {}
        invariant AreSubdirectories(was, dir, keep)
        invariant disk == Cleared(was, written, dir, keep)
        decreases keep
      {
        var path :| path in keep;
        GoingInto(was, written, dir, keep, path);
        keep := keep - {path};
        ClearLowerLayers(path);
      }
      NothingPending(was, written, dir);
      ClearedHasShape(was, written, dir, {});
    }

    ghost function Now(): W.State
      reads this
    {
      W.State(disk, written)
    }

    /** Makes the directories missing on the way to `path`, shallowest first. */
    method PrepareParents(path: Path, owner: Owner)
      requires W.DiskShape(disk) && W.WayTo(disk, path) == W.Clear
      modifies this`disk
      ensures disk == W.MakeParents(old(disk), path, owner)
    {
      ghost var was := disk;
      var k := 1;
      while k < |path|
        invariant 1 <= k && (k <= |path| || k == 1)
        invariant forall p :: p in disk <==> p in was || (p != [] && |p| < k && Under(p, path))
        invariant forall p | p in disk :: disk[p] == if p in was then was[p] else W.Slot(owner, W.DirectoryInode)
      {
        var ancestor := path[..k];
        if ancestor !in disk {
          disk := disk[ancestor := W.Slot(owner, W.DirectoryInode)];
        }
        assert forall p | p != [] && |p| == k && Under(p, path) :: p == ancestor;
        k := k + 1;
      }
    }

    /** Nothing happens where no directory of the rootfs stands. */
    method ApplyOpaqueWhiteout(dir: Path) returns (outcome: Step)
      requires W.DiskShape(disk)
      modifies this`disk
      ensures Took(outcome, W.ApplyOpaque(old(Now()), dir), Now())
    {
      if dir != [] {
        var way := W.WayTo(disk, dir);
        if way == W.FileInTheWay { return Stopped; }
        if way == W.LinkInTheWay { return WentElsewhere; }
        if !W.IsDirectory(disk, dir) { return Done; }
      }
      ClearLowerLayers(dir);
      outcome := Done;
    }

    method ApplyNamedWhiteout(target: Path) returns (outcome: Step)
      requires target != []
      modifies this`disk
      ensures Took(outcome, W.ApplyNamed(old(Now()), target), Now())
    {
      if !Ordinary(Last(target)) { return WentElsewhere; }
      if target !in written {
        var way := W.WayTo(disk, target);
        if way == W.FileInTheWay { return Stopped; }
        if way == W.LinkInTheWay { return WentElsewhere; }
        disk := W.RemoveAny(disk, target);
      }
      outcome := Done;
    }

    /** Places one entry that is no marker. */
    method Place(owner: Owner, entry: Entry, host: W.Host, skipped: bool) returns (outcome: Step)
      requires W.DiskShape(disk) && entry.path != []
      modifies this
      ensures Took(outcome, W.PlaceEntry(old(Now()), host, owner, entry, skipped), Now())
    {
      var path := entry.path;
      written := written + {path};
      var way := W.WayTo(disk, path);
      if way == W.FileInTheWay { return Stopped; }
      if way == W.LinkInTheWay { return WentElsewhere; }
      PrepareParents(path, owner);
      if entry.kind.IsFile() {
        disk := W.RemoveAny(disk, path);
        if !skipped {
          disk := disk[path := W.Slot(owner, W.FileInode(owner))];
        }
        return Done;
      }
      if entry.kind == Directory {
        disk := W.PlaceDirectory(disk, host, path, owner);
        return Done;
      }
      if entry.kind == HardLink {
        way := W.WayTo(disk, entry.target);
        if way == W.FileInTheWay { return Stopped; }
        if way == W.LinkInTheWay { return WentElsewhere; }
        // A path given twice is a hard link to itself, and what stands stays.
        if entry.target == path && path in disk { return Done; }
        disk := W.RemoveAny(disk, path);
        if entry.target !in disk || disk[entry.target].inode.DirectoryInode? { return Stopped; }
        disk := disk[path := W.Slot(owner, disk[entry.target].inode)];
        return Done;
      }
      disk := W.RemoveAny(disk, path);
      if entry.link == [] { return Stopped; }
      disk := disk[path := W.Slot(owner, W.LinkInode(owner, entry.link))];
      outcome := Done;
    }

    method Apply(owner: Owner, entry: Entry, host: W.Host, skipped: bool) returns (outcome: Step)
      requires W.DiskShape(disk) && entry.path != []
      modifies this
      ensures Took(outcome, W.WalkEntry(old(Now()), host, owner, entry, skipped), Now())
    {
      if entry.path == ROOT_ENTRY { return Done; }
      match WhiteoutOf(entry.path)
      case Some(Opaque(dir)) => outcome := ApplyOpaqueWhiteout(dir);
      case Some(Named(target)) => outcome := ApplyNamedWhiteout(target);
      case Some(Invalid) => outcome := Stopped;
      case None =>
        if entry.kind == Unsupported { return Done; }
        outcome := Place(owner, entry, host, skipped);
    }

    /** Unpacks every layer, in order. It gets to the end exactly when it gets by
        every entry, and it reports an error exactly when it comes to one that
        stops it. */
    method Unpack(tables: Tables, host: W.Host, skips: W.Skips) returns (outcome: Step)
      requires AllWellFormed(tables) && PathsNamed(tables) && tables != []
      requires disk == map[] && written == {}
      modifies this
      ensures Took(outcome, W.WalkTo(tables, host, skips, |tables| - 1, |tables[|tables| - 1]|), Now())
      ensures outcome == Done <==> S.GetsByUpTo(tables, host, skips, |tables| - 1, |tables[|tables| - 1]|)
      ensures outcome == Done ==> S.EverythingIsAboutSomething(tables)
      ensures outcome == Stopped <==> exists o: Owner | Holds(tables, o) :: StopsAt(tables, host, skips, o)
    {
      outcome := UnpackLayers(tables, host, skips);
      WalkEndsSo(tables, host, skips);
    }

    /** Walks every layer, each having written nothing when it starts. */
    method UnpackLayers(tables: Tables, host: W.Host, skips: W.Skips) returns (outcome: Step)
      requires AllWellFormed(tables) && PathsNamed(tables) && tables != []
      requires disk == map[] && written == {}
      modifies this
      ensures Took(outcome, W.WalkTo(tables, host, skips, |tables| - 1, |tables[|tables| - 1]|), Now())
    {
      var l := 0;
      while true
        invariant 0 <= l < |tables| && W.DiskShape(disk)
        invariant W.WalkTo(tables, host, skips, l, 0) == W.Walked(W.State(disk, {}))
        decreases |tables| - l
      {
        written := {};
        var e := 0;
        while e < |tables[l]|
          invariant 0 <= e <= |tables[l]| && W.DiskShape(disk)
          invariant W.WalkTo(tables, host, skips, l, e) == W.Walked(Now())
        {
          var owner := Owner(l, e);
          assert Holds(tables, owner) && WellFormed(At(tables, owner));
          var entry := tables[l][e];
          ghost var before := Now();
          outcome := Apply(owner, entry, host, skips(l, entry.path));
          assert W.WalkTo(tables, host, skips, l, e + 1) ==
                 W.WalkEntry(before, host, owner, entry, skips(l, entry.path));
          if outcome != Done {
            StaysStopped(tables, host, skips, l, e + 1);
            return;
          }
          EntryKeepsShape(before, host, owner, entry, skips(l, entry.path));
          e := e + 1;
        }
        if l + 1 == |tables| { return Done; }
        assert W.WalkTo(tables, host, skips, l + 1, 0) == W.Walked(W.State(disk, {}));
        l := l + 1;
      }
    }
  }

  /** How a step of the extractor ended. */
  datatype Step = Done | Stopped | WentElsewhere

  ghost predicate Took(step: Step, outcome: W.Outcome, now: W.State) {
    match outcome
    case Walked(s) => step == Done && s == now
    case Stops => step == Stopped
    case Elsewhere => step == WentElsewhere
  }

  lemma {:induction false} StaysStopped(tables: Tables, host: W.Host, skips: W.Skips, layer: nat, entries: nat)
    requires IsPoint(tables, layer, entries) && PathsNamed(tables)
    requires !W.WalkTo(tables, host, skips, layer, entries).Walked?
    ensures W.WalkTo(tables, host, skips, |tables| - 1, |tables[|tables| - 1]|) ==
            W.WalkTo(tables, host, skips, layer, entries)
    decreases |tables| - layer, |tables[layer]| - entries
  {
    if entries < |tables[layer]| {
      StaysStopped(tables, host, skips, layer, entries + 1);
    } else if layer + 1 < |tables| {
      assert W.WalkTo(tables, host, skips, layer + 1, 0) == W.WalkTo(tables, host, skips, layer, entries);
      StaysStopped(tables, host, skips, layer + 1, 0);
    }
  }

  // ------------------------------------------------------------ the disk's shape

  lemma RemovalKeepsShape(disk: W.Disk, path: Path)
    requires W.DiskShape(disk)
    ensures W.DiskShape(W.RemoveAny(disk, path))
  {
  }

  lemma TakingKeepsShape(disk: W.Disk, path: Path, slot: W.Slot)
    requires W.DiskShape(disk) && path != []
    requires forall a | a != [] && Under(a, path) :: W.IsDirectory(disk, a)
    ensures W.DiskShape(W.RemoveAny(disk, path)[path := slot])
  {
  }

  lemma PlacingKeepsShape(s: W.State, host: W.Host, owner: Owner, entry: Entry, skipped: bool)
    requires W.DiskShape(s.disk) && entry.path != []
    requires W.PlaceEntry(s, host, owner, entry, skipped).Walked?
    ensures W.DiskShape(W.PlaceEntry(s, host, owner, entry, skipped).state.disk)
  {
    S.OpenIsClear(s.disk, entry.path);
    S.ParentsKeepShape(s.disk, entry.path, owner);
    var disk, path := W.MakeParents(s.disk, entry.path, owner), entry.path;
    RemovalKeepsShape(disk, path);
    if entry.kind.IsFile() {
      TakingKeepsShape(disk, path, W.Slot(owner, W.FileInode(owner)));
    } else if entry.kind == Directory {
      TakingKeepsShape(disk, path, W.Slot(owner, W.DirectoryInode));
      var remade := disk[path := W.Slot(owner, W.DirectoryInode)];
      forall p, a | p in remade && a != [] && Under(a, p) ensures W.IsDirectory(remade, a) {
        if p in disk { assert W.IsDirectory(disk, a); }
      }
    } else if entry.kind == HardLink {
      if !(entry.target == path && path in disk) {
        TakingKeepsShape(disk, path, W.Slot(owner, W.RemoveAny(disk, path)[entry.target].inode));
      }
    } else {
      TakingKeepsShape(disk, path, W.Slot(owner, W.LinkInode(owner, entry.link)));
    }
  }

  lemma ClearingKeepsShape(disk: W.Disk, written: set<Path>, dir: Path)
    requires W.DiskShape(disk)
    ensures W.DiskShape(W.ClearLower(disk, written, dir))
  {
    NothingPending(disk, written, dir);
    ClearedHasShape(disk, written, dir, {});
  }

  /** On the walk's disk whatever holds a name stays a directory. */
  lemma EntryKeepsShape(s: W.State, host: W.Host, owner: Owner, entry: Entry, skipped: bool)
    requires W.DiskShape(s.disk) && entry.path != []
    requires W.WalkEntry(s, host, owner, entry, skipped).Walked?
    ensures W.DiskShape(W.WalkEntry(s, host, owner, entry, skipped).state.disk)
  {
    if entry.path != ROOT_ENTRY {
      match WhiteoutOf(entry.path)
      case Some(Opaque(dir)) => ClearingKeepsShape(s.disk, s.written, dir);
      case Some(Named(target)) => RemovalKeepsShape(s.disk, target);
      case Some(Invalid) =>
      case None =>
        if entry.kind != Unsupported {
          PlacingKeepsShape(s, host, owner, entry, skipped);
        }
    }
  }

  lemma {:induction false} WalkKeepsShape(tables: Tables, host: W.Host, skips: W.Skips, layer: nat, entries: nat)
    requires IsPoint(tables, layer, entries) && PathsNamed(tables)
    requires W.WalkTo(tables, host, skips, layer, entries).Walked?
    ensures W.DiskShape(W.WalkTo(tables, host, skips, layer, entries).state.disk)
    decreases layer, entries
  {
    if entries > 0 {
      var last := Owner(layer, entries - 1);
      assert Holds(tables, last);
      WalkKeepsShape(tables, host, skips, layer, entries - 1);
      EntryKeepsShape(W.WalkTo(tables, host, skips, layer, entries - 1).state, host, last, At(tables, last),
                      skips(layer, At(tables, last).path));
    } else if layer > 0 {
      WalkKeepsShape(tables, host, skips, layer - 1, |tables[layer - 1]|);
    }
  }

  // ------------------------------------------------------------ how a walk ends

  /** The walk comes to the entry and stops on it. */
  ghost predicate StopsAt(tables: Tables, host: W.Host, skips: W.Skips, o: Owner)
    requires PathsNamed(tables) && Holds(tables, o)
  {
    var before := W.WalkTo(tables, host, skips, o.layer, o.entry);
    before.Walked? && S.IsStoppedBy(before.state, At(tables, o))
  }

  lemma {:induction false} StopsSomewhere(tables: Tables, host: W.Host, skips: W.Skips, layer: nat, entries: nat)
    requires IsPoint(tables, layer, entries) && PathsNamed(tables)
    ensures W.WalkTo(tables, host, skips, layer, entries).Stops? <==>
            exists o: Owner | Holds(tables, o) && o.Precedes(Owner(layer, entries)) :: StopsAt(tables, host, skips, o)
    decreases layer, entries
  {
    if entries > 0 {
      var last := Owner(layer, entries - 1);
      assert Holds(tables, last);
      StopsSomewhere(tables, host, skips, layer, entries - 1);
      var before := W.WalkTo(tables, host, skips, layer, entries - 1);
      if before.Walked? {
        WalkKeepsShape(tables, host, skips, layer, entries - 1);
        S.Stopping(before.state, host, last, At(tables, last), skips(layer, At(tables, last).path));
      }
      assert forall o: Owner :: o.Precedes(Owner(layer, entries)) <==> o.Precedes(last) || o == last;
    } else if layer > 0 {
      StopsSomewhere(tables, host, skips, layer - 1, |tables[layer - 1]|);
    }
  }

  lemma WalkEndsSo(tables: Tables, host: W.Host, skips: W.Skips)
    requires PathsNamed(tables) && tables != []
    ensures var ended := W.WalkTo(tables, host, skips, |tables| - 1, |tables[|tables| - 1]|);
            && (ended.Walked? <==> S.GetsByUpTo(tables, host, skips, |tables| - 1, |tables[|tables| - 1]|))
            && (ended.Walked? ==> S.EverythingIsAboutSomething(tables))
            && (ended.Stops? <==> exists o: Owner | Holds(tables, o) :: StopsAt(tables, host, skips, o))
  {
    var l, e := |tables| - 1, |tables[|tables| - 1]|;
    S.WalksAsFarAsItGetsBy(tables, host, skips, l, e);
    StopsSomewhere(tables, host, skips, l, e);
    if W.WalkTo(tables, host, skips, l, e).Walked? {
      S.NamingNothingStopsTheWalk(tables, host, skips);
    }
  }

  lemma SiftOne(was: W.Disk, written: set<Path>, dir: Path, seen: set<Path>, path: Path)
    requires W.DiskShape(was) && path in Children(was, dir) && path !in seen
    ensures var disk := Sifted(was, written, dir, seen);
            && path in disk && disk[path] == was[path]
            && Sifted(was, written, dir, seen + {path}) ==
               (if W.ClearKeeps(was, written, path) then disk else W.RemoveAny(disk, path))
  {
    assert ChildOf(dir, path) == path;
    var disk := Sifted(was, written, dir, seen);
    forall p | p in was && Under(dir, p) ensures ChildOf(dir, p) == path <==> AtOrUnder(path, p) {
    }
    forall p | p in was && AtOrUnder(path, p) ensures Under(dir, p) {
      UnderIsTransitive(dir, path, p);
    }
  }

  lemma SiftedIsPending(was: W.Disk, written: set<Path>, dir: Path, keep: set<Path>)
    requires W.DiskShape(was)
    requires keep == set c | c in Children(was, dir) && W.IsDirectory(was, c) && W.ClearKeeps(was, written, c)
    ensures Sifted(was, written, dir, Children(was, dir)) == Cleared(was, written, dir, keep)
  {
    forall p | p in was && Under(dir, p) && W.ClearKeeps(was, written, ChildOf(dir, p))
      ensures ChildOf(dir, p) in Children(was, dir)
      ensures ChildOf(dir, p) in keep || W.ClearKeeps(was, written, p)
    {
      ChildHolds(was, dir, p);
      if ChildOf(dir, p) != p { assert W.IsDirectory(was, ChildOf(dir, p)); }
    }
    forall p | p in was && Under(dir, p) ensures ChildOf(dir, p) in Children(was, dir) {
      ChildHolds(was, dir, p);
    }
  }

  lemma ClearOne(was: W.Disk, written: set<Path>, dir: Path, pending: set<Path>, path: Path)
    requires W.DiskShape(was) && path in was && Under(dir, path) && |path| == |dir| + 1 && path !in pending
    ensures W.ClearLower(Cleared(was, written, dir, pending + {path}), written, path) ==
            Cleared(was, written, dir, pending)
  {
    var disk := Cleared(was, written, dir, pending + {path});
    forall p | p in disk
      ensures (Under(path, p) ==> W.ClearKeeps(disk, written, p)) <==> p in Cleared(was, written, dir, pending)
    {
      if Under(dir, p) {
        ChildHolds(was, dir, p);
        assert Under(path, p) ==> ChildOf(dir, p) == path;
      } else if Under(path, p) {
        UnderIsTransitive(dir, path, p);
        assert false;
      }
    }
  }

  lemma NothingPending(was: W.Disk, written: set<Path>, dir: Path)
    requires W.DiskShape(was)
    ensures Cleared(was, written, dir, {}) == W.ClearLower(was, written, dir)
  {
    forall p | p in was && Under(dir, p) && W.ClearKeeps(was, written, p)
      ensures W.ClearKeeps(was, written, ChildOf(dir, p))
    {
      ChildHolds(was, dir, p);
      if ChildOf(dir, p) != p {
        assert W.IsDirectory(was, ChildOf(dir, p));
        KeptHolder(was, written, p, ChildOf(dir, p));
      }
    }
  }
}
