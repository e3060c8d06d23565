/** What the replay refuses, against what the walk does not get by. */
module Refusals {
  import opened Paths
  import opened Layers
  import opened Mirror
  import opened Owners
  import opened Simulation
  import opened Stopping
  import P = Plain
  import R = Replay
  import W = Walk

  /** A marker hiding a name no path can hold: the walk would act on a directory
      through it. */
  predicate IsOddMarker(path: Path)
    requires path != []
  {
    IsMarker(path) && !IsOpaque(path) && !IsBareMarker(path) && !Ordinary(Last(Hidden(path)))
  }

  /** A symlink of its own stands at the path. */
  ghost predicate IsOwnLink(tables: Tables, disk: W.Disk, path: Path) {
    W.IsLink(disk, path) && Holds(tables, disk[path].placed) && At(tables, disk[path].placed).kind == Symlink
  }

  /** A symlink stands there that points out of the rootfs, or nowhere in it, or
      to another. */
  ghost predicate CannotBeFollowed(tables: Tables, disk: W.Disk, path: Path)
    requires path != []
  {
    IsOwnLink(tables, disk, path) &&
    match R.PointsAt(path, disk[path].inode.target)
    case None => true
    case Some(at) => IsOwnLink(tables, disk, at)
  }

  /** Entries the walk gets by and the replay has something against: an opaque
      marker for what is no directory, another marker or an entry of a kind that
      is not supported with something in the way, a directory where a symlink
      stands that the plan cannot follow, and a hard link to itself where a
      directory stands. */
  ghost predicate IsBalkedAt(tables: Tables, disk: W.Disk, entry: Entry)
    requires entry.path != []
  {
    var path := entry.path;
    && path != ROOT_ENTRY
    && if IsOpaque(path) then Parent(path) in disk && !W.IsDirectory(disk, Parent(path))
       else if IsMarker(path) || entry.kind == Unsupported then !IsOpen(disk, path)
       else if entry.kind == Directory then CannotBeFollowed(tables, disk, path)
       else entry.kind == HardLink && entry.target == path && W.IsDirectory(disk, path)
  }

  /** What the replay has nothing against, told from the walk's side. */
  ghost predicate IsLetBy(tables: Tables, s: W.State, entry: Entry)
    requires entry.path != []
  {
    (GetsBy(s, entry) || IsOddMarker(entry.path)) && !IsBalkedAt(tables, s.disk, entry)
  }

  // ------------------------------------------------------------ the way, on both sides

  lemma WaysAgree(tables: Tables, tree: R.Tree, disk: W.Disk, path: Path)
    requires Agrees(tables, tree, disk) && Plain(path) && path[0] != CURRENT_DIR
    ensures R.InTheWay(tree, tables, path) == R.Nothing <==> IsOpen(disk, path)
  {
    forall a | a != [] && Under(a, path)
      ensures a in disk <==> a in tree
      ensures a in disk ==> (W.IsDirectory(disk, a) <==> tree[a].kind == Directory)
    {
      assert a[0] == path[0];
      if a in disk { assert Matches(tables, tree[a], disk[a]); }
    }
    var blocker := R.BlockedBy(tree, path);
    if blocker.Some? {
      assert Under(blocker.value, path) && blocker.value != [];
    } else {
      forall a | a != [] && Under(a, path) && a in tree ensures tree[a].kind == Directory {
        assert a == path[..|a|];
      }
    }
  }

  lemma CanonicalWaysAgree(tables: Tables, tree: R.Tree, disk: W.Disk, path: Path)
    requires Agrees(tables, tree, disk) && Canonical(path)
    ensures R.InTheWay(tree, tables, path) == R.Nothing <==> IsOpen(disk, path)
  {
    assert Ordinary(path[0]);
    WaysAgree(tables, tree, disk, path);
  }

  lemma StandsAlike(tables: Tables, tree: R.Tree, disk: W.Disk, path: Path)
    requires Agrees(tables, tree, disk) && OwnersMatch(tables, tree) && path != ROOT_ENTRY
    ensures path in disk <==> path in tree
    ensures W.IsDirectory(disk, path) <==> R.Named(tree, path, Directory)
    ensures IsOwnLink(tables, disk, path) <==> R.Named(tree, path, Symlink)
    ensures !R.Named(tree, path, Unsupported)
    ensures R.Named(tree, path, Symlink) ==> disk[path].inode.target == R.LinkOf(tables, tree[path].owner)
  {
    if path in tree {
      assert Matches(tables, tree[path], disk[path]) && Owned(tables, path, tree[path]);
    }
  }

  lemma PointsAtNoRoot(path: Path, target: Bytes)
    requires Canonical(path)
    ensures R.PointsAt(path, target).Some? ==> R.PointsAt(path, target).value != ROOT_ENTRY
  {
    SplitHasNoSlash(target);
    KeptAreNames(Split(target));
    var names := (if R.IsAbsolute(target) then [] else Parent(path)) + Components(target);
    if names != [] {
      assert names[0] == (if |Parent(path)| > 0 && !R.IsAbsolute(target) then path[0] else Components(target)[0]);
      assert names[0] != CURRENT_DIR by {
        assert Ordinary(path[0]);
      }
    }
  }

  lemma FollowedAlike(tables: Tables, tree: R.Tree, s: W.State, owner: Owner, path: Path)
    requires Inv(tables, tree, s, owner.layer) && OwnersMatch(tables, tree) && Canonical(path)
    ensures R.KeepsTheLink(R.EnsureParents(tree, path, owner), tables, path) == None <==>
            CannotBeFollowed(tables, s.disk, path)
  {
    RootEntryIsNotCanonical();
    StandsAlike(tables, tree, s.disk, path);
    if R.Named(tree, path, Symlink) {
      ParentsStand(tables, tree, s, path, owner);
      var target := R.LinkOf(tables, tree[path].owner);
      PointsAtNoRoot(path, target);
      if R.PointsAt(path, target).Some? {
        StandsAlike(tables, tree, s.disk, R.PointsAt(path, target).value);
      }
    } else {
      assert !R.Named(R.EnsureParents(tree, path, owner), path, Symlink);
    }
  }

  lemma LinkedAlike(tables: Tables, tree: R.Tree, s: W.State, layer: nat, entry: Entry)
    requires Inv(tables, tree, s, layer) && OwnersMatch(tables, tree) && WellFormed(entry) && entry.kind == HardLink
    requires IsOpen(s.disk, entry.path)
    ensures R.LinksSomewhere(tree, tables, entry) == R.Nothing <==>
            CanLink(s.disk, entry.path, entry.target)
            && !(entry.target == entry.path && W.IsDirectory(s.disk, entry.path))
  {
    RootEntryIsNotCanonical();
    StandsAlike(tables, tree, s.disk, entry.target);
    CanonicalWaysAgree(tables, tree, s.disk, entry.target);
  }

  // ------------------------------------------------------------ one entry

  lemma OpaqueIsLetBy(tables: Tables, tree: R.Tree, s: W.State, owner: Owner, entry: Entry)
    requires Inv(tables, tree, s, owner.layer) && OwnersMatch(tables, tree) && Canonical(entry.path)
    requires IsOpaque(entry.path)
    ensures R.ReplayEntry(R.State(tree, R.Nothing), tables, owner, entry).blocked == R.Nothing <==>
            IsLetBy(tables, s, entry)
  {
    RootEntryIsNotCanonical();
    MarkersTold(entry.path);
    CanonicalWaysAgree(tables, tree, s.disk, entry.path);
    HolderOpens(s.disk, entry.path);
  }

  lemma MarkerIsLetBy(tables: Tables, tree: R.Tree, s: W.State, owner: Owner, entry: Entry)
    requires Inv(tables, tree, s, owner.layer) && OwnersMatch(tables, tree) && Canonical(entry.path)
    requires IsMarker(entry.path) && !IsOpaque(entry.path)
    ensures R.ReplayEntry(R.State(tree, R.Nothing), tables, owner, entry).blocked == R.Nothing <==>
            IsLetBy(tables, s, entry)
  {
    RootEntryIsNotCanonical();
    MarkersTold(entry.path);
    CanonicalWaysAgree(tables, tree, s.disk, entry.path);
    if IsBareMarker(entry.path) {
      PlacingAddsUp(tables, R.State(tree, R.TheWalkStopsHere), owner, entry);
    }
  }

  /** The way to a path is open when the way to what holds it is, and that is a
      directory or is not there. */
  lemma HolderOpens(disk: W.Disk, path: Path)
    requires path != [] && [] !in disk
    ensures IsOpen(disk, path) <==>
            IsOpen(disk, Parent(path)) && (Parent(path) in disk ==> W.IsDirectory(disk, Parent(path)))
  {
    forall a ensures Under(a, path) <==> a == Parent(path) || Under(a, Parent(path)) {
      assert Under(a, path) <==> |a| < |path| && path[..|a|] == a;
      assert |a| < |path| ==> Parent(path)[..|a|] == path[..|a|];
    }
  }

  lemma OrdinaryIsLetBy(tables: Tables, tree: R.Tree, s: W.State, owner: Owner, entry: Entry)
    requires Inv(tables, tree, s, owner.layer) && OwnersMatch(tables, tree) && WellFormed(entry)
    requires entry.path != ROOT_ENTRY && !IsMarker(entry.path)
    ensures R.ReplayEntry(R.State(tree, R.Nothing), tables, owner, entry).blocked == R.Nothing <==>
            IsLetBy(tables, s, entry)
  {
    MarkersTold(entry.path);
    CanonicalWaysAgree(tables, tree, s.disk, entry.path);
    if entry.kind == Directory {
      FollowedAlike(tables, tree, s, owner, entry.path);
    } else if entry.kind == HardLink && IsOpen(s.disk, entry.path) {
      LinkedAlike(tables, tree, s, owner.layer, entry);
    }
  }

  lemma RootIsLetBy(tables: Tables, tree: R.Tree, s: W.State, owner: Owner, entry: Entry)
    requires OwnersMatch(tables, tree) && WellFormed(entry) && entry.path == ROOT_ENTRY
    ensures R.ReplayEntry(R.State(tree, R.Nothing), tables, owner, entry).blocked == R.Nothing
    ensures IsLetBy(tables, s, entry)
  {
    RootEntryIsNotCanonical();
    MarkersTold(entry.path);
    assert Ancestors(ROOT_ENTRY) == {};
    assert ROOT_ENTRY in tree ==> Owned(tables, ROOT_ENTRY, tree[ROOT_ENTRY]);
  }

  /** Where tree and disk agree, the replay has nothing against an entry exactly
      when the walk gets by it, but for a marker hiding a name no path can hold,
      which it lets by, and the few it balks at. */
  lemma BlocksWhereTheWalkSticks(tables: Tables, tree: R.Tree, s: W.State, owner: Owner, entry: Entry)
    requires Inv(tables, tree, s, owner.layer) && OwnersMatch(tables, tree) && WellFormed(entry)
    ensures R.ReplayEntry(R.State(tree, R.Nothing), tables, owner, entry).blocked == R.Nothing <==>
            IsLetBy(tables, s, entry)
  {
    if entry.path == ROOT_ENTRY {
      RootIsLetBy(tables, tree, s, owner, entry);
    } else if IsOpaque(entry.path) {
      OpaqueIsLetBy(tables, tree, s, owner, entry);
    } else if IsMarker(entry.path) {
      MarkerIsLetBy(tables, tree, s, owner, entry);
    } else {
      OrdinaryIsLetBy(tables, tree, s, owner, entry);
    }
  }

  // ------------------------------------------------------------ how it is refused

  /** A link on the way that leads to a directory: the walk goes through it. */
  ghost predicate LeadsThrough(disk: W.Disk, host: W.Host, path: Path) {
    exists a | a in disk :: a != [] && Under(a, path) && W.IsLink(disk, a) && W.LeadsToADirectory(disk, host, a)
  }

  /** What stands in the way is a symlink the walk goes through exactly when one
      leads to a directory, as long as the links on the way are plain. */
  lemma ThroughIsThrough(tables: Tables, tree: R.Tree, s: W.State, host: W.Host, layer: nat, path: Path)
    requires Inv(tables, tree, s, layer) && OwnersMatch(tables, tree) && Canonical(path)
    requires forall a | a != [] && Under(a, path) :: LinkIsPlain(tables, tree, s.disk, host, a)
    ensures R.InTheWay(tree, tables, path) == R.ThroughASymlink <==> LeadsThrough(s.disk, host, path)
  {
    CanonicalWaysAgree(tables, tree, s.disk, path);
    DiskHasShape(tables, tree, s.disk);
    var blocker := R.BlockedBy(tree, path);
    if blocker.Some? {
      var a := blocker.value;
      assert Under(a, path) && a != [] && a != ROOT_ENTRY by {
        assert Ordinary(path[0]) && a[0] == path[0];
      }
      StandsAlike(tables, tree, s.disk, a);
      assert LinkIsPlain(tables, tree, s.disk, host, a);
      OnlyBlocker(s.disk, path, a);
    } else {
      assert IsOpen(s.disk, path);
    }
  }

  lemma OnlyBlocker(disk: W.Disk, path: Path, a: Path)
    requires W.DiskShape(disk) && a in disk && a != [] && Under(a, path) && !W.IsDirectory(disk, a)
    ensures forall b | b in disk && b != [] && Under(b, path) && !W.IsDirectory(disk, b) :: b == a
  {
    forall b | b in disk && b != [] && Under(b, path) && !W.IsDirectory(disk, b) ensures b == a {
      BothOnTheWay(a, b, path);
    }
  }

  function Badness(blocked: R.Blocked): nat {
    match blocked
    case Nothing => 0
    case ThroughASymlink => 1
    case TheWalkStopsHere => 2
  }

  function Worse(a: nat, b: nat): nat {
    if a > b then a else b
  }

  lemma WorstIsWorse(a: R.Blocked, b: R.Blocked)
    ensures Badness(a.Worst(b)) == Worse(Badness(a), Badness(b))
  {
  }

  lemma PlacingAddsUp(tables: Tables, s: R.State, owner: Owner, entry: Entry)
    requires entry.path != []
    ensures var after, alone := R.PlaceEntry(s, tables, owner, entry),
                                R.PlaceEntry(R.State(s.tree, R.Nothing), tables, owner, entry);
            && after.tree == alone.tree
            && Badness(after.blocked) == Worse(Badness(s.blocked), Badness(alone.blocked))
  {
    WorstIsWorse(s.blocked, R.ThroughASymlink);
  }

  /** What is in the way of a replay is the worst that has been: an entry adds to
      it what it would meet with nothing in the way before it, and leaves the same
      tree whatever there was. */
  lemma BlockedIsTheWorst(tables: Tables, s: R.State, owner: Owner, entry: Entry)
    requires entry.path != []
    ensures var after, alone := R.ReplayEntry(s, tables, owner, entry),
                                R.ReplayEntry(R.State(s.tree, R.Nothing), tables, owner, entry);
            && after.tree == alone.tree
            && Badness(after.blocked) == Worse(Badness(s.blocked), Badness(alone.blocked))
  {
    var inTheWay, links := R.InTheWay(s.tree, tables, entry.path), R.LinksSomewhere(s.tree, tables, entry);
    WorstIsWorse(s.blocked, inTheWay);
    WorstIsWorse(R.Nothing, inTheWay);
    if WhiteoutOf(entry.path).None? {
      WorstIsWorse(s.blocked.Worst(inTheWay), links);
      WorstIsWorse(inTheWay, links);
      PlacingAddsUp(tables, R.State(s.tree, s.blocked.Worst(inTheWay).Worst(links)), owner, entry);
      PlacingAddsUp(tables, R.State(s.tree, inTheWay.Worst(links)), owner, entry);
    } else if WhiteoutOf(entry.path) == Some(Invalid) {
      PlacingAddsUp(tables, R.State(s.tree, R.TheWalkStopsHere), owner, entry);
    }
  }

  // ------------------------------------------------------------ whole images

  /** An entry the replay balks at when its turn comes. */
  ghost predicate IsBalkedAtItsTurn(tables: Tables, host: W.Host, o: Owner)
    requires PathsNamed(tables) && Holds(tables, o)
  {
    var before := Walked(tables, host, o.layer, o.entry);
    before.Walked? && IsBalkedAt(tables, before.state.disk, At(tables, o))
  }

  ghost predicate NothingIsBalkedAt(tables: Tables, host: W.Host)
    requires PathsNamed(tables)
  {
    forall o: Owner | Holds(tables, o) :: !IsBalkedAtItsTurn(tables, host, o)
  }

  /** Where the replay has come to a point with nothing in the way, it has nothing
      against the next entry exactly when the walk gets by it and it is none to
      balk at. */
  lemma OneEntryMoreIsFree(tables: Tables, host: W.Host, layer: nat, entries: nat)
    requires AllWellFormed(tables) && PathsNamed(tables) && P.PlainImage(tables)
    requires IsPoint(tables, layer, entries) && entries < |tables[layer]| && R.FreeAt(tables, layer, entries)
    ensures R.FreeAt(tables, layer, entries + 1) ==> !IsBalkedAtItsTurn(tables, host, Owner(layer, entries))
    ensures Walked(tables, host, layer, entries + 1).Walked? ==>
              (R.FreeAt(tables, layer, entries + 1) <==> !IsBalkedAtItsTurn(tables, host, Owner(layer, entries)))
  {
    var o := Owner(layer, entries);
    assert Holds(tables, o) && WellFormed(At(tables, o));
    P.PlainIsGuarded(tables, host, layer, entries);
    ReplayKeepsOwners(tables, layer, entries);
    var before, s := R.ReplayTo(tables, layer, entries), Foreseen(tables, layer, entries);
    assert before == R.State(before.tree, R.Nothing);
    assert R.ReplayTo(tables, layer, entries + 1) == R.ReplayEntry(before, tables, o, At(tables, o));
    assert Walked(tables, host, layer, entries + 1) == W.WalkEntry(s, host, o, At(tables, o), false);
    BlocksWhereTheWalkSticks(tables, before.tree, s, o, At(tables, o));
    GettingBy(s, host, o, At(tables, o), false);
  }

  lemma WalkedBefore(tables: Tables, host: W.Host, layer: nat, entries: nat)
    requires PathsNamed(tables) && IsPoint(tables, layer, entries) && Walked(tables, host, layer, entries).Walked?
    ensures entries > 0 ==> Walked(tables, host, layer, entries - 1).Walked?
    ensures entries == 0 && layer > 0 ==> Walked(tables, host, layer - 1, |tables[layer - 1]|).Walked?
  {
  }

  lemma {:induction false} FreeAsFarAsWalked(tables: Tables, host: W.Host, layer: nat, entries: nat)
    requires AllWellFormed(tables) && PathsNamed(tables) && P.PlainImage(tables) && IsPoint(tables, layer, entries)
    requires Walked(tables, host, layer, entries).Walked? && NothingIsBalkedAt(tables, host)
    ensures R.FreeAt(tables, layer, entries)
    decreases layer, entries
  {
    if entries > 0 {
      WalkedBefore(tables, host, layer, entries);
      FreeAsFarAsWalked(tables, host, layer, entries - 1);
      assert Holds(tables, Owner(layer, entries - 1));
      assert !IsBalkedAtItsTurn(tables, host, Owner(layer, entries - 1));
      OneEntryMoreIsFree(tables, host, layer, entries - 1);
    } else if layer > 0 {
      WalkedBefore(tables, host, layer, entries);
      FreeAsFarAsWalked(tables, host, layer - 1, |tables[layer - 1]|);
      assert R.ReplayTo(tables, layer, 0) == R.ReplayTo(tables, layer - 1, |tables[layer - 1]|);
    }
  }

  lemma {:induction false} FreeUpTo(tables: Tables, layer: nat, entries: nat, l: nat, e: nat)
    requires PathsNamed(tables) && IsPoint(tables, layer, entries) && IsPoint(tables, l, e)
    requires layer < l || (layer == l && entries <= e)
    requires R.FreeAt(tables, l, e)
    ensures R.FreeAt(tables, layer, entries)
    decreases l, e
  {
    if !(layer == l && entries == e) {
      R.FreeBefore(tables, l, e);
      if e > 0 { FreeUpTo(tables, layer, entries, l, e - 1); }
      else { FreeUpTo(tables, layer, entries, l - 1, |tables[l - 1]|); }
    }
  }

  /** An image told plain from its tables is refused for nothing but what the walk
      does not get by, and the few entries the replay balks at: it is resolved
      with nothing in the way if and only if the walk comes to the end and no
      entry is one of those when its turn comes, whatever the host. */
  lemma RefusedForAReason(tables: Tables, host: W.Host)
    requires AllWellFormed(tables) && PathsNamed(tables) && tables != [] && P.PlainImage(tables)
    ensures R.Replayed(tables).blocked == R.Nothing <==>
            Walked(tables, host, |tables| - 1, |tables[|tables| - 1]|).Walked? && NothingIsBalkedAt(tables, host)
  {
    var l, e := |tables| - 1, |tables[|tables| - 1]|;
    if R.FreeAt(tables, l, e) {
      P.PlainIsGuarded(tables, host, l, e);
      forall o: Owner | Holds(tables, o) ensures !IsBalkedAtItsTurn(tables, host, o) {
        FreeUpTo(tables, o.layer, o.entry + 1, l, e);
        R.FreeBefore(tables, o.layer, o.entry + 1);
        OneEntryMoreIsFree(tables, host, o.layer, o.entry);
      }
    } else if Walked(tables, host, l, e).Walked? && NothingIsBalkedAt(tables, host) {
      FreeAsFarAsWalked(tables, host, l, e);
    }
  }

  // ------------------------------------------------------------ one the walk gets by

  /** A file, and on top of it an opaque marker as if it were a directory. */
  function Emptying(name: Name): Tables {
    [[Entry(File, [name], [], [], 0, 0)], [Entry(File, [name, OPAQUE], [], [], 0, 0)]]
  }

  lemma EmptyingIsWalked(name: Name, host: W.Host)
    requires Ordinary(name) && WhiteoutOf([name]).None? && PathsNamed(Emptying(name))
    ensures var after := Walked(Emptying(name), host, 0, 1);
            after.Walked? && after.state.disk == map[[name] := W.Slot(Owner(0, 0), W.FileInode(Owner(0, 0)))]
  {
    var tables, o := Emptying(name), Owner(0, 0);
    assert Holds(tables, o) && At(tables, o).path == [name] && [name] != ROOT_ENTRY;
    var start := W.State(map[], {});
    assert Walked(tables, host, 0, 0) == W.Walked(start);
    assert Ancestors([name]) == {};
    assert W.MakeParents(map[], [name], o) == map[];
  }

  /** So an image can be extracted by walking it and be refused by the replay, which
      finds a file on the way to the marker that the walk passes over. */
  lemma RefusedYetWalked(name: Name, host: W.Host)
    requires Ordinary(name) && WhiteoutOf([name]).None? && PathsNamed(Emptying(name))
    ensures R.Replayed(Emptying(name)).blocked == R.TheWalkStopsHere
    ensures Walked(Emptying(name), host, 1, 1).Walked?
  {
    var tables, o := Emptying(name), Owner(1, 0);
    EmptyingIsWalked(name, host);
    var entry := At(tables, o);
    assert Holds(tables, o) && Last(entry.path) == OPAQUE && Parent(entry.path) == [name];
    assert WhiteoutOf(entry.path) == Some(Opaque([name]));
    var s := Walked(tables, host, 0, 1).state;
    assert Walked(tables, host, 1, 0) == W.Walked(W.State(s.disk, {}));
    assert W.WayTo(s.disk, [name]) == W.Clear;
    EmptyingIsReplayed(name);
    var before := R.ReplayTo(tables, 1, 0);
    assert R.ReplayTo(tables, 1, 1) == R.ReplayEntry(before, tables, o, entry);
    assert entry.path[..1] == [name];
    assert R.InTheWay(before.tree, tables, entry.path) == R.TheWalkStopsHere;
  }

  lemma EmptyingIsReplayed(name: Name)
    requires Ordinary(name) && WhiteoutOf([name]).None? && PathsNamed(Emptying(name))
    ensures R.Named(R.ReplayTo(Emptying(name), 1, 0).tree, [name], File)
  {
    var tables, o := Emptying(name), Owner(0, 0);
    assert Holds(tables, o) && At(tables, o).path == [name];
    assert R.ReplayTo(tables, 1, 0) == R.ReplayTo(tables, 0, 1);
    assert R.ReplayTo(tables, 0, 1) == R.ReplayEntry(R.ReplayTo(tables, 0, 0), tables, o, At(tables, o));
  }
}
