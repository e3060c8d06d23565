/** The plan's tree against the walk's disk, entry for entry. */
module Simulation {
  import opened Paths
  import opened Layers
  import R = Replay
  import W = Walk

  // ------------------------------------------------------------ agreement

  /** What a node of the tree says is on the disk. */
  predicate Matches(tables: Tables, node: R.Node, slot: W.Slot) {
    && slot.placed == node.owner
    && match node.kind
       case Directory => slot.inode.DirectoryInode?
       case File | Sparse => slot.inode == W.FileInode(node.owner)
       case Symlink => slot.inode == W.LinkInode(node.owner, R.LinkOf(tables, node.owner))
       case HardLink => !slot.inode.DirectoryInode?
       case Unsupported => false
  }

  /** The disk holds exactly the paths of the tree, each with the kind the tree
      gives it and placed by the entry the tree says. The rootfs itself is no
      path under it. */
  ghost predicate Agrees(tables: Tables, tree: R.Tree, disk: W.Disk) {
    && (forall p :: p in disk <==> p in tree && p != ROOT_ENTRY)
    && forall p | p in disk :: Matches(tables, tree[p], disk[p])
  }

  /** Whatever holds a path in the tree is a directory in it. */
  ghost predicate Shape(tree: R.Tree) {
    && (forall p | p in tree :: Canonical(p) || p == ROOT_ENTRY)
    && forall p, a | p in tree && a != [] && Under(a, p) :: R.Named(tree, a, Directory)
  }

  /** What the tree says this layer named, the walk has written. */
  ghost predicate WroteWhatItNamed(tree: R.Tree, written: set<Path>, layer: nat) {
    forall p | p in tree && p != ROOT_ENTRY && tree[p].namedBy == Some(layer) :: p in written
  }

  ghost predicate NamedSoFar(tree: R.Tree, layer: nat) {
    forall p | p in tree && tree[p].namedBy.Some? :: tree[p].namedBy.value <= layer
  }

  ghost predicate Inv(tables: Tables, tree: R.Tree, s: W.State, layer: nat) {
    && Agrees(tables, tree, s.disk)
    && Shape(tree)
    && WroteWhatItNamed(tree, s.written, layer)
    && NamedSoFar(tree, layer)
  }

  // ------------------------------------------------------------ the guards

  /** A layer's own path comes between a directory the layer did not name and
      what the layer named in it, as `d.conf` comes between `d` and `d/a`. */
  ghost predicate Straddles(tree: R.Tree, dir: Path, layer: nat, p: Path, q: Path, r: Path) {
    && p in tree && Under(dir, p) && p != ROOT_ENTRY && tree[p].namedBy != Some(layer)
    && R.IsOurs(tree, dir, layer, q) && Under(p, q)
    && R.IsOurs(tree, dir, layer, r) && !Under(p, r)
    && Before(p, r) && Before(r, q)
  }

  ghost predicate NothingStraddles(tree: R.Tree, dir: Path, layer: nat) {
    forall p, q, r :: !Straddles(tree, dir, layer, p, q, r)
  }

  ghost predicate HoldsOurs(tree: R.Tree, dir: Path, layer: nat, p: Path) {
    exists q :: R.IsOurs(tree, dir, layer, q) && Under(p, q)
  }

  /** A path the walk remembers writing to, and the tree remembers nothing of:
      what the layer placed there has been taken away again. */
  ghost predicate IsStale(tree: R.Tree, written: set<Path>, dir: Path, layer: nat, p: Path) {
    && p in tree && Under(dir, p) && p != ROOT_ENTRY
    && tree[p].namedBy != Some(layer) && !HoldsOurs(tree, dir, layer, p)
    && (p in written || (tree[p].kind == Directory && W.WroteUnder(written, p)))
  }

  ghost predicate NothingStale(tree: R.Tree, written: set<Path>, dir: Path, layer: nat) {
    forall p :: !IsStale(tree, written, dir, layer, p)
  }

  /** A named marker's target is an ordinary name, and not one this layer wrote
      and lost. */
  predicate MarkerIsPlain(tree: R.Tree, written: set<Path>, layer: nat, target: Path)
    requires target != []
  {
    && Ordinary(Last(target))
    && (target in written && target in tree ==> tree[target].namedBy == Some(layer))
  }

  /** A link standing where a directory entry goes leads to a directory exactly
      when it is a symlink of its own whose end point the plan finds to be one. */
  predicate LinkIsPlain(tables: Tables, tree: R.Tree, disk: W.Disk, host: W.Host, path: Path)
    requires path != []
  {
    W.IsLink(disk, path) ==>
      (W.LeadsToADirectory(disk, host, path) <==>
       path in tree && tree[path].kind == Symlink && R.KeepsTheLink(tree, tables, path) == Some(true))
  }

  /** What has to hold of the tree and the walk for one entry to mean the same
      to both. */
  ghost predicate Guard(tables: Tables, tree: R.Tree, s: W.State, host: W.Host, owner: Owner, entry: Entry)
    requires entry.path != []
  {
    entry.path != ROOT_ENTRY ==>
      match WhiteoutOf(entry.path)
      case Some(Opaque(dir)) =>
        NothingStraddles(tree, dir, owner.layer) && NothingStale(tree, s.written, dir, owner.layer)
      case Some(Named(target)) => MarkerIsPlain(tree, s.written, owner.layer, target)
      case Some(Invalid) => true
      case None =>
        entry.kind == Directory ==> LinkIsPlain(tables, tree, s.disk, host, entry.path)
  }

  // ------------------------------------------------------------ small steps

  lemma WayIsClear(tables: Tables, tree: R.Tree, disk: W.Disk, path: Path)
    requires Agrees(tables, tree, disk) && R.InTheWay(tree, tables, path) == R.Nothing
    ensures W.WayTo(disk, path) == W.Clear
  {
  }

  lemma DiskHasShape(tables: Tables, tree: R.Tree, disk: W.Disk)
    requires Agrees(tables, tree, disk) && Shape(tree)
    ensures W.DiskShape(disk)
  {
    forall p, a | p in disk && a != [] && Under(a, p) ensures W.IsDirectory(disk, a) {
      assert R.Named(tree, a, Directory);
      assert p[0] == a[0] && Ordinary(p[0]);
      assert Matches(tables, tree[a], disk[a]);
    }
  }

  lemma ParentsAgree(tables: Tables, tree: R.Tree, s: W.State, path: Path, owner: Owner)
    requires Inv(tables, tree, s, owner.layer) && Canonical(path)
    requires R.BlockedBy(tree, path) == None
    ensures Inv(tables, R.EnsureParents(tree, path, owner), W.State(W.MakeParents(s.disk, path, owner), s.written),
            owner.layer)
    ensures forall a | a != [] && Under(a, path) :: R.Named(R.EnsureParents(tree, path, owner), a, Directory)
  {
    RootEntryIsNotCanonical();
    var t := R.EnsureParents(tree, path, owner);
    forall a | a != [] && Under(a, path) ensures R.Named(t, a, Directory) && Canonical(a) && a != ROOT_ENTRY {
      assert a == path[..|a|];
      assert forall i | 0 <= i < |a| :: a[i] == path[i];
    }
    forall p, a | p in t && a != [] && Under(a, p) ensures R.Named(t, a, Directory) {
      if p in tree {
        assert R.Named(tree, a, Directory);
      } else {
        UnderIsTransitive(a, p, path);
      }
    }
  }

  lemma RemovalsAgree(tables: Tables, tree: R.Tree, s: W.State, path: Path, layer: nat)
    requires Inv(tables, tree, s, layer) && path != []
    ensures Inv(tables, R.RemoveWhole(tree, path), W.State(W.RemoveAny(s.disk, path), s.written), layer)
  {
  }

  /** Only a directory holds anything. */
  lemma NothingUnder(tree: R.Tree, path: Path)
    requires Shape(tree) && path != [] && !R.Named(tree, path, Directory)
    ensures forall p | p in tree :: !Under(path, p)
  {
  }

  /** Placing one node where nothing is, with a directory to go in. */
  lemma PlacingAgrees(tables: Tables, tree: R.Tree, s: W.State, path: Path, node: R.Node, slot: W.Slot, layer: nat)
    requires Inv(tables, tree, s, layer) && Canonical(path)
    requires node.namedBy == Some(layer) && Matches(tables, node, slot)
    requires forall a | a != [] && Under(a, path) :: R.Named(tree, a, Directory)
    requires node.kind == Directory || forall p | p in tree :: !Under(path, p)
    ensures Inv(tables, tree[path := node], W.State(s.disk[path := slot], s.written + {path}), layer)
  {
    RootEntryIsNotCanonical();
    var t := tree[path := node];
    forall p, a | p in t && a != [] && Under(a, p) ensures R.Named(t, a, Directory) {
      if p in tree { assert R.Named(tree, a, Directory); }
    }
  }

  lemma NamingAgrees(tables: Tables, tree: R.Tree, s: W.State, path: Path, layer: nat)
    requires Inv(tables, tree, s, layer)
    ensures Inv(tables, R.Rename(tree, path, layer), W.State(s.disk, s.written + {path}), layer)
  {
  }

  // ------------------------------------------------------------ opaque markers

  lemma TreePathsArePlain(tree: R.Tree, path: Path)
    requires Shape(tree) && path in tree
    ensures Plain(path)
  {
  }

  /** The scan misses what a directory holds exactly when something of the
      layer's comes between the two. */
  lemma ScanMissesByStraddling(tree: R.Tree, dir: Path, layer: nat, p: Path)
    requires Shape(tree) && p in tree && Under(dir, p) && p != ROOT_ENTRY
    requires tree[p].namedBy != Some(layer)
    ensures R.ScanKeeps(tree, dir, layer, p) ==> HoldsOurs(tree, dir, layer, p)
    ensures HoldsOurs(tree, dir, layer, p) && !R.ScanKeeps(tree, dir, layer, p) <==>
            exists q, r :: Straddles(tree, dir, layer, p, q, r)
  {
    TreePathsArePlain(tree, p);
    if HoldsOurs(tree, dir, layer, p) {
      var q :| R.IsOurs(tree, dir, layer, q) && Under(p, q);
      UnderComesAfter(p, q);
      var after := set x | x in tree && R.IsOurs(tree, dir, layer, x) && Before(p, x);
      assert q in after;
      forall x | x in after ensures Plain(x) { TreePathsArePlain(tree, x); }
      var r := Earliest(after);
      assert R.FirstOursAfter(tree, dir, layer, p, r);
      BeforeIsTotal(q, r);
      if !R.ScanKeeps(tree, dir, layer, p) {
        assert !Under(p, r);
        assert Straddles(tree, dir, layer, p, q, r);
      }
    }
    forall q, r | Straddles(tree, dir, layer, p, q, r)
      ensures !R.ScanKeeps(tree, dir, layer, p) && HoldsOurs(tree, dir, layer, p)
    {
      StraddledIsMissed(tree, dir, layer, p, q, r);
    }
  }

  lemma StraddledIsMissed(tree: R.Tree, dir: Path, layer: nat, p: Path, q: Path, r: Path)
    requires Shape(tree) && Straddles(tree, dir, layer, p, q, r)
    ensures !R.ScanKeeps(tree, dir, layer, p)
  {
    forall first | R.FirstOursAfter(tree, dir, layer, p, first) ensures !Under(p, first) {
      if Under(p, first) {
        TreePathsArePlain(tree, p);
        TreePathsArePlain(tree, q);
        TreePathsArePlain(tree, r);
        TreePathsArePlain(tree, first);
        UnderIsOneRange(p, r, q, first);
        assert false;
      }
    }
  }

  /** What the walk keeps that the tree has nothing of is stale. */
  lemma WalkKeepsTheStale(tables: Tables, tree: R.Tree, s: W.State, dir: Path, layer: nat, p: Path)
    requires Inv(tables, tree, s, layer) && p in tree && Under(dir, p) && p != ROOT_ENTRY
    requires tree[p].namedBy != Some(layer)
    ensures HoldsOurs(tree, dir, layer, p) ==> W.ClearKeeps(s.disk, s.written, p)
    ensures W.ClearKeeps(s.disk, s.written, p) && !HoldsOurs(tree, dir, layer, p) <==>
            IsStale(tree, s.written, dir, layer, p)
  {
  }

  lemma NothingIsLostOfTheNamed(tables: Tables, tree: R.Tree, s: W.State, dir: Path, layer: nat, p: Path)
    requires Inv(tables, tree, s, layer) && R.IsOurs(tree, dir, layer, p)
    ensures !R.Dropped(tree, dir, layer, p) && W.ClearKeeps(s.disk, s.written, p)
  {
  }

  /** Where no path of the layer straddles and none is stale, the marker drops
      the same paths from the tree as from the disk. */
  lemma ClearingAgrees(tables: Tables, tree: R.Tree, s: W.State, dir: Path, layer: nat)
    requires Inv(tables, tree, s, layer)
    requires NothingStraddles(tree, dir, layer) && NothingStale(tree, s.written, dir, layer)
    ensures Inv(tables, R.RemoveLower(tree, dir, layer), W.State(W.ClearLower(s.disk, s.written, dir), s.written),
            layer)
  {
    var t, d := R.RemoveLower(tree, dir, layer), W.ClearLower(s.disk, s.written, dir);
    forall p | p in tree && p != ROOT_ENTRY && Under(dir, p)
      ensures p in t <==> p in d
    {
      DropsAlike(tables, tree, s, dir, layer, p);
    }
    assert Agrees(tables, t, d);
    forall p, a | p in t && a != [] && Under(a, p) ensures R.Named(t, a, Directory) {
      HoldersStay(tables, tree, s, dir, layer, p, a);
    }
  }

  lemma DropsAlike(tables: Tables, tree: R.Tree, s: W.State, dir: Path, layer: nat, p: Path)
    requires Inv(tables, tree, s, layer)
    requires p in tree && p != ROOT_ENTRY && Under(dir, p)
    requires NothingStraddles(tree, dir, layer) && NothingStale(tree, s.written, dir, layer)
    ensures R.Dropped(tree, dir, layer, p) <==> !W.ClearKeeps(s.disk, s.written, p)
    ensures R.Dropped(tree, dir, layer, p) <==> tree[p].namedBy != Some(layer) && !HoldsOurs(tree, dir, layer, p)
  {
    if tree[p].namedBy == Some(layer) {
      NothingIsLostOfTheNamed(tables, tree, s, dir, layer, p);
    } else {
      ScanMissesByStraddling(tree, dir, layer, p);
      WalkKeepsTheStale(tables, tree, s, dir, layer, p);
    }
  }

  lemma HoldersStay(tables: Tables, tree: R.Tree, s: W.State, dir: Path, layer: nat, p: Path, a: Path)
    requires Inv(tables, tree, s, layer)
    requires NothingStraddles(tree, dir, layer) && NothingStale(tree, s.written, dir, layer)
    requires p in tree && a != [] && Under(a, p) && !R.Dropped(tree, dir, layer, p)
    ensures R.Named(tree, a, Directory) && !R.Dropped(tree, dir, layer, a)
  {
    assert R.Named(tree, a, Directory);
    if R.Dropped(tree, dir, layer, a) {
      DropsAlike(tables, tree, s, dir, layer, a);
      UnderIsTransitive(dir, a, p);
      if p == ROOT_ENTRY { assert false; }
      DropsAlike(tables, tree, s, dir, layer, p);
      if tree[p].namedBy == Some(layer) {
        assert false;
      }
      var q :| R.IsOurs(tree, dir, layer, q) && Under(p, q);
      UnderIsTransitive(a, p, q);
      assert false;
    }
  }

  /** And where one does, the two part over that path. */
  lemma ClearingParts(tables: Tables, tree: R.Tree, s: W.State, dir: Path, layer: nat)
    requires Inv(tables, tree, s, layer)
    requires !(NothingStraddles(tree, dir, layer) && NothingStale(tree, s.written, dir, layer))
    ensures !Agrees(tables, R.RemoveLower(tree, dir, layer), W.ClearLower(s.disk, s.written, dir))
  {
    var t, d := R.RemoveLower(tree, dir, layer), W.ClearLower(s.disk, s.written, dir);
    var p;
    if !NothingStraddles(tree, dir, layer) {
      var p', q, r :| Straddles(tree, dir, layer, p', q, r);
      p := p';
    } else {
      p :| IsStale(tree, s.written, dir, layer, p);
    }
    ScanMissesByStraddling(tree, dir, layer, p);
    WalkKeepsTheStale(tables, tree, s, dir, layer, p);
    assert p in d && p !in t;
  }

  // ------------------------------------------------------------ one entry

  lemma OpaqueStep(tables: Tables, tree: R.Tree, s: W.State, dir: Path, name: Name, layer: nat)
    requires Inv(tables, tree, s, layer) && (dir == [] || Canonical(dir))
    requires R.InTheWay(tree, tables, dir + [name]) == R.Nothing
    ensures var after := W.ApplyOpaque(s, dir);
            && after.Walked?
            && (NothingStraddles(tree, dir, layer) && NothingStale(tree, s.written, dir, layer) ==>
                  Inv(tables, R.RemoveLower(tree, dir, layer), after.state, layer))
            && (!(NothingStraddles(tree, dir, layer) && NothingStale(tree, s.written, dir, layer)) ==>
                  !Agrees(tables, R.RemoveLower(tree, dir, layer), after.state.disk))
  {
    WayIsClear(tables, tree, s.disk, dir + [name]);
    assert forall i | 1 <= i < |dir| :: (dir + [name])[..i] == dir[..i];
    assert (dir + [name])[..|dir|] == dir;
    assert W.WayTo(s.disk, dir) == W.Clear;
    RootEntryIsNotCanonical();
    if dir in tree && dir != ROOT_ENTRY {
      assert Matches(tables, tree[dir], s.disk[dir]);
    }
    var good := NothingStraddles(tree, dir, layer) && NothingStale(tree, s.written, dir, layer);
    if dir == [] || W.IsDirectory(s.disk, dir) {
      if good {
        ClearingAgrees(tables, tree, s, dir, layer);
      } else {
        ClearingParts(tables, tree, s, dir, layer);
      }
    } else {
      NothingUnder(tree, dir);
      assert R.RemoveLower(tree, dir, layer) == tree;
    }
  }

  lemma NamedStep(tables: Tables, tree: R.Tree, s: W.State, target: Path, layer: nat)
    requires Inv(tables, tree, s, layer) && target != []
    requires Parent(target) == [] || Canonical(Parent(target))
    requires R.InTheWay(tree, tables, target) == R.Nothing
    ensures var after := W.ApplyNamed(s, target);
            && (MarkerIsPlain(tree, s.written, layer, target) ==>
                  after.Walked? && Inv(tables, R.ApplyNamed(tree, target, layer), after.state, layer))
            && (!MarkerIsPlain(tree, s.written, layer, target) ==>
                  !(after.Walked? && Agrees(tables, R.ApplyNamed(tree, target, layer), after.state.disk)))
  {
  }

  function DirectoryNode(owner: Owner): R.Node {
    R.Node(Directory, owner, Some(owner.layer))
  }

  /** A directory where a directory, or nothing, already stands. */
  lemma DirectoryMade(tables: Tables, tree: R.Tree, s: W.State, host: W.Host, owner: Owner, path: Path)
    requires Inv(tables, tree, s, owner.layer) && Canonical(path)
    requires forall a | a != [] && Under(a, path) :: R.Named(tree, a, Directory)
    requires path in s.disk ==> W.IsDirectory(s.disk, path)
    ensures Inv(tables, tree[path := DirectoryNode(owner)],
                W.State(W.PlaceDirectory(s.disk, host, path, owner), s.written + {path}), owner.layer)
  {
    RootEntryIsNotCanonical();
    PlacingAgrees(tables, tree, s, path, DirectoryNode(owner), W.Slot(owner, W.DirectoryInode), owner.layer);
    if path !in s.disk {
      NothingUnder(tree, path);
      assert W.RemoveAny(s.disk, path) == s.disk;
    }
  }

  /** A directory taking the place of something that is not one. */
  lemma DirectoryTakes(tables: Tables, tree: R.Tree, s: W.State, owner: Owner, path: Path)
    requires Inv(tables, tree, s, owner.layer) && Canonical(path)
    requires forall a | a != [] && Under(a, path) :: R.Named(tree, a, Directory)
    requires path in s.disk && !W.IsDirectory(s.disk, path)
    ensures Inv(tables, tree[path := DirectoryNode(owner)],
                W.State(W.RemoveAny(s.disk, path)[path := W.Slot(owner, W.DirectoryInode)], s.written + {path}),
                owner.layer)
  {
  }

  /** What a directory entry leaves in the tree, once its parents are there. */
  function DirectoryTree(tables: Tables, tree: R.Tree, owner: Owner, path: Path): R.Tree
    requires path != []
  {
    if R.KeepsTheLink(tree, tables, path) == Some(true) then R.Rename(tree, path, owner.layer)
    else tree[path := DirectoryNode(owner)]
  }

  lemma DirectoryStep(tables: Tables, tree: R.Tree, s: W.State, host: W.Host, owner: Owner, path: Path)
    requires Inv(tables, tree, s, owner.layer) && Canonical(path)
    requires forall a | a != [] && Under(a, path) :: R.Named(tree, a, Directory)
    ensures var after := W.State(W.PlaceDirectory(s.disk, host, path, owner), s.written + {path});
            && (LinkIsPlain(tables, tree, s.disk, host, path) ==>
                  Inv(tables, DirectoryTree(tables, tree, owner, path), after, owner.layer))
            && (!LinkIsPlain(tables, tree, s.disk, host, path) ==>
                  !Agrees(tables, DirectoryTree(tables, tree, owner, path), after.disk))
  {
    RootEntryIsNotCanonical();
    if path in s.disk {
      assert Matches(tables, tree[path], s.disk[path]);
    }
    if W.IsLink(s.disk, path) && !LinkIsPlain(tables, tree, s.disk, host, path) {
      var tree', disk' := DirectoryTree(tables, tree, owner, path), W.PlaceDirectory(s.disk, host, path, owner);
      assert path in disk' && path in tree';
      assert !Matches(tables, tree'[path], disk'[path]);
    } else if W.IsLink(s.disk, path) && W.LeadsToADirectory(s.disk, host, path) {
      NamingAgrees(tables, tree, s, path, owner.layer);
    } else if path in s.disk && !W.IsDirectory(s.disk, path) {
      DirectoryTakes(tables, tree, s, owner, path);
    } else {
      DirectoryMade(tables, tree, s, host, owner, path);
    }
  }

  /** Anything that clears its path and takes it. */
  lemma TakingStep(tables: Tables, tree: R.Tree, s: W.State, owner: Owner, path: Path, node: R.Node, slot: W.Slot)
    requires Inv(tables, tree, s, owner.layer) && Canonical(path)
    requires R.BlockedBy(tree, path) == None
    requires node.namedBy == Some(owner.layer) && Matches(tables, node, slot)
    ensures var cleared := R.RemoveWhole(R.EnsureParents(tree, path, owner), path);
            var disk := W.RemoveAny(W.MakeParents(s.disk, path, owner), path);
            Inv(tables, cleared[path := node], W.State(disk[path := slot], s.written + {path}), owner.layer)
  {
    ParentsAgree(tables, tree, s, path, owner);
    var t := R.EnsureParents(tree, path, owner);
    var mid := W.State(W.MakeParents(s.disk, path, owner), s.written);
    RemovalsAgree(tables, t, mid, path, owner.layer);
    var cleared := R.RemoveWhole(t, path);
    forall a | a != [] && Under(a, path) ensures R.Named(cleared, a, Directory) {
      assert R.Named(t, a, Directory);
    }
    PlacingAgrees(tables, cleared, W.State(W.RemoveAny(mid.disk, path), s.written), path, node, slot, owner.layer);
  }

  lemma HardLinkStep(tables: Tables, tree: R.Tree, s: W.State, owner: Owner, entry: Entry)
    requires Inv(tables, tree, s, owner.layer) && WellFormed(entry) && entry.kind == HardLink
    requires R.BlockedBy(tree, entry.path) == None
    requires R.LinksSomewhere(tree, tables, entry) == R.Nothing
    ensures var disk := W.MakeParents(s.disk, entry.path, owner);
            var linked := W.PlaceHardLink(disk, entry.path, entry.target, owner);
            && W.WayTo(disk, entry.target) == W.Clear
            && linked.Some?
            && Inv(tables, R.PlaceEntry(R.State(tree, R.Nothing), tables, owner, entry).tree,
                   W.State(linked.value, s.written + {entry.path}), owner.layer)
  {
    RootEntryIsNotCanonical();
    var path, target := entry.path, entry.target;
    ParentsAgree(tables, tree, s, path, owner);
    var t := R.EnsureParents(tree, path, owner);
    var mid := W.State(W.MakeParents(s.disk, path, owner), s.written);
    assert target in tree && t[target] == tree[target];
    assert Matches(tables, t[target], mid.disk[target]);
    forall i | 1 <= i < |target| && target[..i] in mid.disk ensures W.IsDirectory(mid.disk, target[..i]) {
      assert R.Named(t, target[..i], Directory);
      assert Matches(tables, t[target[..i]], mid.disk[target[..i]]);
    }
    if target == path {
      NamingAgrees(tables, t, mid, path, owner.layer);
    } else {
      var node := R.Node(HardLink, owner, Some(owner.layer));
      TakingStep(tables, tree, s, owner, path, node, W.Slot(owner, mid.disk[target].inode));
    }
  }

  /** What stands has its parents. */
  lemma ParentsStand(tables: Tables, tree: R.Tree, s: W.State, path: Path, owner: Owner)
    requires Inv(tables, tree, s, owner.layer) && Canonical(path) && path in s.disk
    ensures R.EnsureParents(tree, path, owner) == tree
    ensures W.MakeParents(s.disk, path, owner) == s.disk
  {
    DiskHasShape(tables, tree, s.disk);
    forall a | a in Ancestors(path) ensures a in tree && a in s.disk {
      assert R.Named(tree, a, Directory) && W.IsDirectory(s.disk, a);
    }
  }

  lemma PlacedStep(tables: Tables, tree: R.Tree, s: W.State, host: W.Host, owner: Owner, entry: Entry)
    requires Inv(tables, tree, s, owner.layer) && WellFormed(entry) && entry.path != ROOT_ENTRY
    requires Holds(tables, owner) && At(tables, owner) == entry && WhiteoutOf(entry.path).None?
    requires entry.kind != Unsupported && entry.kind != Directory
    requires R.InTheWay(tree, tables, entry.path) == R.Nothing
    requires R.LinksSomewhere(tree, tables, entry) == R.Nothing
    ensures var after := W.WalkEntry(s, host, owner, entry, false);
            after.Walked? &&
            Inv(tables, R.PlaceEntry(R.State(tree, R.Nothing), tables, owner, entry).tree, after.state, owner.layer)
  {
    WayIsClear(tables, tree, s.disk, entry.path);
    var node := R.Node(entry.kind, owner, Some(owner.layer));
    if entry.kind == HardLink {
      HardLinkStep(tables, tree, s, owner, entry);
    } else if entry.kind == Symlink {
      TakingStep(tables, tree, s, owner, entry.path, node, W.Slot(owner, W.LinkInode(owner, entry.link)));
    } else {
      TakingStep(tables, tree, s, owner, entry.path, node, W.Slot(owner, W.FileInode(owner)));
    }
  }

  /** A directory entry, with its parents there. */
  lemma DirectoryIsPlaced(tables: Tables, tree: R.Tree, s: W.State, host: W.Host, owner: Owner, entry: Entry)
    requires W.WayTo(s.disk, entry.path) == W.Clear && entry.path != ROOT_ENTRY && entry.path != []
    requires WhiteoutOf(entry.path).None? && entry.kind == Directory
    requires R.PlaceEntry(R.State(tree, R.Nothing), tables, owner, entry).blocked == R.Nothing
    ensures W.WalkEntry(s, host, owner, entry, false) ==
            W.Walked(W.State(W.PlaceDirectory(W.MakeParents(s.disk, entry.path, owner), host, entry.path, owner),
                             s.written + {entry.path}))
    ensures R.PlaceEntry(R.State(tree, R.Nothing), tables, owner, entry).tree ==
            DirectoryTree(tables, R.EnsureParents(tree, entry.path, owner), owner, entry.path)
  {
  }

  /** Making the parents does not change what a link standing there leads to. */
  lemma GuardIsPlainness(tables: Tables, tree: R.Tree, s: W.State, host: W.Host, owner: Owner, entry: Entry)
    requires Inv(tables, tree, s, owner.layer) && Canonical(entry.path) && entry.kind == Directory
    requires WhiteoutOf(entry.path).None?
    ensures Guard(tables, tree, s, host, owner, entry) <==>
            LinkIsPlain(tables, R.EnsureParents(tree, entry.path, owner), W.MakeParents(s.disk, entry.path, owner),
                        host, entry.path)
  {
    RootEntryIsNotCanonical();
    if entry.path in s.disk {
      ParentsStand(tables, tree, s, entry.path, owner);
    }
  }

  lemma DirectoryEntryStep(tables: Tables, tree: R.Tree, s: W.State, host: W.Host, owner: Owner, entry: Entry)
    requires Inv(tables, tree, s, owner.layer) && Canonical(entry.path) && entry.kind == Directory
    requires WhiteoutOf(entry.path).None?
    requires R.InTheWay(tree, tables, entry.path) == R.Nothing
    requires R.PlaceEntry(R.State(tree, R.Nothing), tables, owner, entry).blocked == R.Nothing
    ensures var after := W.WalkEntry(s, host, owner, entry, false);
            var tree' := R.PlaceEntry(R.State(tree, R.Nothing), tables, owner, entry).tree;
            && after.Walked?
            && (Guard(tables, tree, s, host, owner, entry) ==> Inv(tables, tree', after.state, owner.layer))
            && (!Guard(tables, tree, s, host, owner, entry) ==> !Agrees(tables, tree', after.state.disk))
  {
    RootEntryIsNotCanonical();
    WayIsClear(tables, tree, s.disk, entry.path);
    ParentsAgree(tables, tree, s, entry.path, owner);
    GuardIsPlainness(tables, tree, s, host, owner, entry);
    DirectoryIsPlaced(tables, tree, s, host, owner, entry);
    var parents := W.State(W.MakeParents(s.disk, entry.path, owner), s.written);
    DirectoryStep(tables, R.EnsureParents(tree, entry.path, owner), parents, host, owner, entry.path);
  }

  lemma RootStep(tables: Tables, tree: R.Tree, s: W.State, owner: Owner)
    requires Inv(tables, tree, s, owner.layer)
    ensures Inv(tables, R.EnsureParents(tree, ROOT_ENTRY, owner)[ROOT_ENTRY := DirectoryNode(owner)], s, owner.layer)
  {
  }

  /** The walk and the tree still agree after an entry exactly when the guard
      holds before it. */
  ghost predicate StepAgrees(tables: Tables, tree: R.Tree, s: W.State, host: W.Host, owner: Owner, entry: Entry)
    requires entry.path != []
  {
    var after := W.WalkEntry(s, host, owner, entry, false);
    var tree' := R.ReplayEntry(R.State(tree, R.Nothing), tables, owner, entry).tree;
    if Guard(tables, tree, s, host, owner, entry)
    then after.Walked? && Inv(tables, tree', after.state, owner.layer)
    else !(after.Walked? && Agrees(tables, tree', after.state.disk))
  }

  /** An entry the replay puts nothing in the way of. */
  ghost predicate Unblocked(tables: Tables, tree: R.Tree, owner: Owner, entry: Entry) {
    && WellFormed(entry) && Holds(tables, owner) && At(tables, owner) == entry
    && R.ReplayEntry(R.State(tree, R.Nothing), tables, owner, entry).blocked == R.Nothing
  }

  lemma OpaqueEntryStep(tables: Tables, tree: R.Tree, s: W.State, host: W.Host, owner: Owner, entry: Entry)
    requires Inv(tables, tree, s, owner.layer) && Unblocked(tables, tree, owner, entry)
    requires entry.path != ROOT_ENTRY && WhiteoutOf(entry.path).Some? && WhiteoutOf(entry.path).value.Opaque?
    ensures StepAgrees(tables, tree, s, host, owner, entry)
  {
    var dir := Parent(entry.path);
    assert entry.path == dir + [Last(entry.path)];
    assert dir == [] || Canonical(dir);
    OpaqueStep(tables, tree, s, dir, Last(entry.path), owner.layer);
  }

  lemma NamedEntryStep(tables: Tables, tree: R.Tree, s: W.State, host: W.Host, owner: Owner, entry: Entry)
    requires Inv(tables, tree, s, owner.layer) && Unblocked(tables, tree, owner, entry)
    requires entry.path != ROOT_ENTRY && WhiteoutOf(entry.path).Some? && WhiteoutOf(entry.path).value.Named?
    ensures StepAgrees(tables, tree, s, host, owner, entry)
  {
    var target := WhiteoutOf(entry.path).value.target;
    assert Parent(target) == Parent(entry.path);
    assert Parent(target) == [] || Canonical(Parent(target));
    SiblingsShareTheWay(tables, tree, target, entry.path);
    NamedStep(tables, tree, s, target, owner.layer);
  }

  lemma OrdinaryEntryStep(tables: Tables, tree: R.Tree, s: W.State, host: W.Host, owner: Owner, entry: Entry)
    requires Inv(tables, tree, s, owner.layer) && Unblocked(tables, tree, owner, entry)
    requires entry.path != ROOT_ENTRY && WhiteoutOf(entry.path).None?
    ensures StepAgrees(tables, tree, s, host, owner, entry)
  {
    if entry.kind == Directory {
      DirectoryEntryStep(tables, tree, s, host, owner, entry);
    } else if entry.kind != Unsupported {
      PlacedStep(tables, tree, s, host, owner, entry);
    }
  }

  lemma RootEntryStep(tables: Tables, tree: R.Tree, s: W.State, host: W.Host, owner: Owner, entry: Entry)
    requires Inv(tables, tree, s, owner.layer) && Unblocked(tables, tree, owner, entry)
    requires entry.path == ROOT_ENTRY
    ensures StepAgrees(tables, tree, s, host, owner, entry)
  {
    RootEntryIsNotCanonical();
    RootStep(tables, tree, s, owner);
  }

  lemma EntryStep(tables: Tables, tree: R.Tree, s: W.State, host: W.Host, owner: Owner, entry: Entry)
    requires Inv(tables, tree, s, owner.layer) && Unblocked(tables, tree, owner, entry)
    ensures StepAgrees(tables, tree, s, host, owner, entry)
  {
    if entry.path == ROOT_ENTRY {
      RootEntryStep(tables, tree, s, host, owner, entry);
    } else {
      match WhiteoutOf(entry.path)
      case Some(Opaque(_)) => OpaqueEntryStep(tables, tree, s, host, owner, entry);
      case Some(Named(_)) => NamedEntryStep(tables, tree, s, host, owner, entry);
      case Some(Invalid) => assert false;
      case None => OrdinaryEntryStep(tables, tree, s, host, owner, entry);
    }
  }

  lemma SiblingsShareTheWay(tables: Tables, tree: R.Tree, a: Path, b: Path)
    requires a != [] && b != [] && Parent(a) == Parent(b)
    ensures R.InTheWay(tree, tables, a) == R.InTheWay(tree, tables, b)
  {
    assert |a| == |b|;
    SameBlocker(tree, a, b, 1);
  }

  lemma {:induction false} SameBlocker(tree: R.Tree, a: Path, b: Path, k: nat)
    requires a != [] && |a| == |b| && Parent(a) == Parent(b)
    ensures R.BlockedFrom(tree, a, k) == R.BlockedFrom(tree, b, k)
    decreases |a| - k
  {
    if k < |a| {
      assert a[..k] == Parent(a)[..k] && b[..k] == Parent(b)[..k];
      SameBlocker(tree, a, b, k + 1);
    }
  }
}
