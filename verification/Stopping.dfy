/** Where the walk gets by an entry, where it stops on one, and where it is led
    off. */
module Stopping {
  import opened Paths
  import opened Layers
  import W = Walk

  // ------------------------------------------------------------ on the way

  /** Only directories stand on the way to the path. */
  ghost predicate IsOpen(disk: W.Disk, path: Path) {
    forall a | a != [] && Under(a, path) && a in disk :: W.IsDirectory(disk, a)
  }

  ghost predicate FileStands(disk: W.Disk, path: Path) {
    exists a | a in disk :: a != [] && Under(a, path) && disk[a].inode.FileInode?
  }

  ghost predicate LinkStands(disk: W.Disk, path: Path) {
    exists a | a in disk :: a != [] && Under(a, path) && disk[a].inode.LinkInode?
  }

  lemma OpenIsClear(disk: W.Disk, path: Path)
    ensures W.WayTo(disk, path) == W.Clear <==> IsOpen(disk, path)
  {
    forall i | 1 <= i < |path| ensures path[..i] != [] && Under(path[..i], path) {
    }
    if W.WayTo(disk, path) == W.Clear {
      forall a | a != [] && Under(a, path) && a in disk ensures W.IsDirectory(disk, a) {
        assert a == path[..|a|];
      }
    }
  }

  lemma {:induction false} WhatStands(disk: W.Disk, path: Path, k: nat)
    requires k >= 1
    ensures W.WayFrom(disk, path, k) == W.LinkInTheWay ==> LinkStands(disk, path)
    ensures W.WayFrom(disk, path, k) == W.FileInTheWay ==> FileStands(disk, path)
    decreases |path| - k
  {
    if k < |path| {
      assert path[..k] != [] && Under(path[..k], path);
      WhatStands(disk, path, k + 1);
    }
  }

  lemma BothOnTheWay(a: Path, b: Path, path: Path)
    requires Under(a, path) && Under(b, path)
    ensures a == b || Under(a, b) || Under(b, a)
  {
    assert |a| <= |b| ==> b[..|a|] == path[..|b|][..|a|] == a;
    assert |b| <= |a| ==> a[..|b|] == path[..|a|][..|b|] == b;
  }

  /** Nothing stands under what is no directory, so there is one thing at most in
      the way. */
  lemma OneThingStands(disk: W.Disk, path: Path)
    requires W.DiskShape(disk)
    ensures !(FileStands(disk, path) && LinkStands(disk, path))
    ensures FileStands(disk, path) || LinkStands(disk, path) ==> !IsOpen(disk, path)
  {
    forall a, b | a in disk && b in disk && Under(a, path) && Under(b, path) && a != [] && b != [] && a != b
      ensures W.IsDirectory(disk, a) || W.IsDirectory(disk, b)
    {
      BothOnTheWay(a, b, path);
    }
  }

  lemma WaysTold(disk: W.Disk, path: Path)
    requires W.DiskShape(disk)
    ensures W.WayTo(disk, path) == W.Clear <==> IsOpen(disk, path)
    ensures W.WayTo(disk, path) == W.FileInTheWay <==> FileStands(disk, path)
    ensures W.WayTo(disk, path) == W.LinkInTheWay <==> LinkStands(disk, path)
  {
    OpenIsClear(disk, path);
    WhatStands(disk, path, 1);
    OneThingStands(disk, path);
  }

  // ------------------------------------------------------------ entries, by name

  /** What a marker other than an opaque one would take away. */
  function Hidden(path: Path): Path
    requires path != [] && |Last(path)| > |PREFIX|
  {
    Parent(path) + [Last(path)[|PREFIX|..]]
  }

  predicate IsMarker(path: Path)
    requires path != []
  {
    StartsWith(Last(path), PREFIX)
  }

  /** A marker with nothing after the prefix. */
  predicate IsBareMarker(path: Path)
    requires path != []
  {
    Last(path) == PREFIX
  }

  predicate IsOpaque(path: Path)
    requires path != []
  {
    Last(path) == OPAQUE
  }

  /** A hard link can be made: to what stands there, when that is no directory and
      is not about to be cleared from under it, or to itself. */
  ghost predicate CanLink(disk: W.Disk, path: Path, target: Path) {
    || (target == path && path in disk)
    || (IsOpen(disk, target) && target in disk && !W.IsDirectory(disk, target) && !AtOrUnder(path, target))
  }

  /** An entry that can be placed once its way is open. */
  ghost predicate CanBePlaced(disk: W.Disk, entry: Entry) {
    (entry.kind == Symlink ==> entry.link != []) && (entry.kind == HardLink ==> CanLink(disk, entry.path, entry.target))
  }

  /** What takes a walk past an entry, told from the disk and what its layer has
      written. */
  ghost predicate GetsBy(s: W.State, entry: Entry)
    requires entry.path != []
  {
    var path := entry.path;
    if path == ROOT_ENTRY then true
    else if IsOpaque(path) then IsOpen(s.disk, Parent(path))
    else if IsMarker(path) then
      && !IsBareMarker(path) && Ordinary(Last(Hidden(path)))
      && (Hidden(path) in s.written || IsOpen(s.disk, path))
    else entry.kind == Unsupported || (IsOpen(s.disk, path) && CanBePlaced(s.disk, entry))
  }

  lemma MarkersTold(path: Path)
    requires path != []
    ensures IsOpaque(path) ==> IsMarker(path) && !IsBareMarker(path)
    ensures IsMarker(path) && !IsBareMarker(path) ==> |Last(path)| > |PREFIX|
    ensures WhiteoutOf(path) ==
            if IsOpaque(path) then Some(Opaque(Parent(path)))
            else if !IsMarker(path) then None
            else if IsBareMarker(path) then Some(Invalid)
            else Some(Named(Hidden(path)))
  {
  }

  /** Making the directories a path needs opens and closes nothing else. */
  lemma ParentsOpenNothing(disk: W.Disk, path: Path, owner: Owner, other: Path)
    requires IsOpen(disk, path)
    ensures IsOpen(W.MakeParents(disk, path, owner), other) <==> IsOpen(disk, other)
    ensures FileStands(W.MakeParents(disk, path, owner), other) <==> FileStands(disk, other)
    ensures LinkStands(W.MakeParents(disk, path, owner), other) <==> LinkStands(disk, other)
  {
    var made := W.MakeParents(disk, path, owner);
    if FileStands(disk, other) {
      var a :| a in disk && a != [] && Under(a, other) && disk[a].inode.FileInode?;
      assert a in made;
    }
    if LinkStands(disk, other) {
      var a :| a in disk && a != [] && Under(a, other) && disk[a].inode.LinkInode?;
      assert a in made;
    }
    if !IsOpen(disk, other) {
      var a :| a != [] && Under(a, other) && a in disk && !W.IsDirectory(disk, a);
      assert a in made && !W.IsDirectory(made, a);
    }
  }

  lemma LinkingTold(disk: W.Disk, path: Path, target: Path, owner: Owner)
    requires IsOpen(disk, path) && path != []
    ensures W.WayTo(W.MakeParents(disk, path, owner), target) == W.Clear <==> IsOpen(disk, target)
    ensures CanLink(disk, path, target) <==>
            && W.WayTo(W.MakeParents(disk, path, owner), target) == W.Clear
            && W.PlaceHardLink(W.MakeParents(disk, path, owner), path, target, owner).Some?
  {
    OpenIsClear(W.MakeParents(disk, path, owner), target);
    ParentsOpenNothing(disk, path, owner, target);
  }

  lemma PlacingGetsBy(s: W.State, host: W.Host, owner: Owner, entry: Entry, skipped: bool)
    requires entry.path != [] && entry.kind != Unsupported
    ensures W.PlaceEntry(s, host, owner, entry, skipped).Walked? <==>
            IsOpen(s.disk, entry.path) && CanBePlaced(s.disk, entry)
  {
    OpenIsClear(s.disk, entry.path);
    if IsOpen(s.disk, entry.path) {
      LinkingTold(s.disk, entry.path, entry.target, owner);
    }
  }

  lemma SiblingsWay(disk: W.Disk, a: Path, b: Path)
    requires a != [] && b != [] && Parent(a) == Parent(b)
    ensures IsOpen(disk, a) <==> IsOpen(disk, b)
    ensures FileStands(disk, a) <==> FileStands(disk, b)
  {
    forall x ensures Under(x, a) <==> Under(x, b) {
      assert Under(x, a) <==> |x| <= |Parent(a)| && Parent(a)[..|x|] == x;
      assert Under(x, b) <==> |x| <= |Parent(b)| && Parent(b)[..|x|] == x;
    }
  }

  /** The walk gets by an entry exactly then. */
  lemma GettingBy(s: W.State, host: W.Host, owner: Owner, entry: Entry, skipped: bool)
    requires entry.path != []
    ensures W.WalkEntry(s, host, owner, entry, skipped).Walked? <==> GetsBy(s, entry)
  {
    var path := entry.path;
    MarkersTold(path);
    if path != ROOT_ENTRY {
      if IsOpaque(path) {
        OpenIsClear(s.disk, Parent(path));
      } else if IsMarker(path) && !IsBareMarker(path) {
        OpenIsClear(s.disk, Hidden(path));
        SiblingsWay(s.disk, Hidden(path), path);
      } else if !IsMarker(path) && entry.kind != Unsupported {
        PlacingGetsBy(s, host, owner, entry, skipped);
      }
    }
  }

  /** It stops with an error at a marker that names nothing, a symlink that names
      nothing, a hard link with nothing to be made to, and wherever a file stands
      in the way. Otherwise it is led off. */
  ghost predicate IsStoppedBy(s: W.State, entry: Entry)
    requires entry.path != []
  {
    var path := entry.path;
    if path == ROOT_ENTRY then false
    else if IsOpaque(path) then FileStands(s.disk, Parent(path))
    else if IsMarker(path) then
      IsBareMarker(path)
      || (Ordinary(Last(Hidden(path))) && Hidden(path) !in s.written && FileStands(s.disk, path))
    else
      && entry.kind != Unsupported
      && (|| FileStands(s.disk, path)
          || (IsOpen(s.disk, path) && entry.kind == Symlink && entry.link == [])
          || (IsOpen(s.disk, path) && entry.kind == HardLink && !CanLink(s.disk, path, entry.target)
              && !LinkStands(s.disk, entry.target)))
  }

  lemma PlacingStops(s: W.State, host: W.Host, owner: Owner, entry: Entry, skipped: bool)
    requires W.DiskShape(s.disk) && entry.path != [] && entry.kind != Unsupported
    ensures W.PlaceEntry(s, host, owner, entry, skipped).Stops? <==>
            (|| FileStands(s.disk, entry.path)
             || (IsOpen(s.disk, entry.path) && entry.kind == Symlink && entry.link == [])
             || (IsOpen(s.disk, entry.path) && entry.kind == HardLink
                 && !CanLink(s.disk, entry.path, entry.target) && !LinkStands(s.disk, entry.target)))
  {
    WaysTold(s.disk, entry.path);
    if IsOpen(s.disk, entry.path) && entry.kind == HardLink {
      var made := W.MakeParents(s.disk, entry.path, owner);
      LinkingTold(s.disk, entry.path, entry.target, owner);
      ParentsKeepShape(s.disk, entry.path, owner);
      WaysTold(made, entry.target);
      ParentsOpenNothing(s.disk, entry.path, owner, entry.target);
      if entry.target == entry.path && entry.path in s.disk { OneThingStands(s.disk, entry.path); }
    }
  }

  lemma ParentsKeepShape(disk: W.Disk, path: Path, owner: Owner)
    requires W.DiskShape(disk) && IsOpen(disk, path)
    ensures W.DiskShape(W.MakeParents(disk, path, owner))
    ensures forall a | a != [] && Under(a, path) :: W.IsDirectory(W.MakeParents(disk, path, owner), a)
  {
    var made := W.MakeParents(disk, path, owner);
    forall p, a | p in made && a != [] && Under(a, p) ensures W.IsDirectory(made, a) {
      if p !in disk {
        UnderIsTransitive(a, p, path);
        assert a in Ancestors(path);
      }
    }
  }

  lemma Stopping(s: W.State, host: W.Host, owner: Owner, entry: Entry, skipped: bool)
    requires W.DiskShape(s.disk) && entry.path != []
    ensures W.WalkEntry(s, host, owner, entry, skipped).Stops? <==> IsStoppedBy(s, entry)
  {
    var path := entry.path;
    MarkersTold(path);
    if path != ROOT_ENTRY {
      if IsOpaque(path) {
        if Parent(path) != [] { WaysTold(s.disk, Parent(path)); }
      } else if IsMarker(path) && !IsBareMarker(path) {
        WaysTold(s.disk, Hidden(path));
        SiblingsWay(s.disk, Hidden(path), path);
      } else if !IsMarker(path) && entry.kind != Unsupported {
        PlacingStops(s, host, owner, entry, skipped);
      }
    }
  }

  // ------------------------------------------------------------ whole walks

  /** Nothing that names nothing: no marker with a bare prefix, and no symlink
      without a target. */
  ghost predicate EverythingIsAboutSomething(tables: Tables)
    requires PathsNamed(tables)
  {
    forall o: Owner | Holds(tables, o) :: IsAboutSomething(At(tables, o))
  }

  predicate IsAboutSomething(entry: Entry)
    requires entry.path != []
  {
    || entry.path == ROOT_ENTRY
    || (!IsBareMarker(entry.path) && (entry.kind == Symlink && !IsMarker(entry.path) ==> entry.link != []))
  }

  /** The walk gets by every entry there has been so far. */
  ghost predicate GetsByUpTo(tables: Tables, host: W.Host, skips: W.Skips, layer: nat, entries: nat)
    requires IsPoint(tables, layer, entries) && PathsNamed(tables)
  {
    forall o: Owner | Holds(tables, o) && o.Precedes(Owner(layer, entries)) :: GetsByAt(tables, host, skips, o)
  }

  ghost predicate GetsByAt(tables: Tables, host: W.Host, skips: W.Skips, o: Owner)
    requires PathsNamed(tables) && Holds(tables, o)
  {
    var before := W.WalkTo(tables, host, skips, o.layer, o.entry);
    before.Walked? && GetsBy(before.state, At(tables, o))
  }

  lemma {:induction false} WalksAsFarAsItGetsBy(tables: Tables, host: W.Host, skips: W.Skips, layer: nat, entries: nat)
    requires IsPoint(tables, layer, entries) && PathsNamed(tables)
    ensures W.WalkTo(tables, host, skips, layer, entries).Walked? <==> GetsByUpTo(tables, host, skips, layer, entries)
    decreases layer, entries
  {
    if entries > 0 {
      var last := Owner(layer, entries - 1);
      assert Holds(tables, last);
      WalksAsFarAsItGetsBy(tables, host, skips, layer, entries - 1);
      var before := W.WalkTo(tables, host, skips, layer, entries - 1);
      if before.Walked? {
        GettingBy(before.state, host, last, At(tables, last), skips(layer, At(tables, last).path));
      }
      assert forall o: Owner :: o.Precedes(Owner(layer, entries)) <==> o.Precedes(last) || o == last;
    } else if layer > 0 {
      WalksAsFarAsItGetsBy(tables, host, skips, layer - 1, |tables[layer - 1]|);
    }
  }

  /** An image some entry of which names nothing is walked to the end on no host,
      whatever is skipped. */
  lemma NamingNothingStopsTheWalk(tables: Tables, host: W.Host, skips: W.Skips)
    requires PathsNamed(tables) && tables != []
    requires W.WalkTo(tables, host, skips, |tables| - 1, |tables[|tables| - 1]|).Walked?
    ensures EverythingIsAboutSomething(tables)
  {
    WalksAsFarAsItGetsBy(tables, host, skips, |tables| - 1, |tables[|tables| - 1]|);
    forall o: Owner | Holds(tables, o) ensures IsAboutSomething(At(tables, o)) {
      assert GetsByAt(tables, host, skips, o);
      MarkersTold(At(tables, o).path);
    }
  }
}
