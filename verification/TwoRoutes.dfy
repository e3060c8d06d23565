/** Placing an image from its plan, against walking its layers. */
module TwoRoutes {
  import opened Paths
  import opened Layers
  import opened History
  import opened Owners
  import opened Placement
  import opened Simulation
  import opened Mirror
  import opened Plain
  import R = Replay
  import W = Walk

  // ------------------------------------------------ what a link was made against

  /** What an earlier entry placed, and stands at the end, stood when a later
      one's turn came. */
  lemma StoodAtItsTurn(tables: Tables, o: Owner, p: Path, owner: Owner, kind: Kind)
    requires PathsNamed(tables) && Holds(tables, o) && owner.Precedes(o)
    requires StandsAs(tables, |tables| - 1, |tables[|tables| - 1]|, p, owner, kind)
    ensures StandsAs(tables, o.layer, o.entry, p, owner, kind)
  {
    StoodSince(tables, o.layer, o.entry, |tables| - 1, |tables[|tables| - 1]|, p, owner, kind);
  }

  /** What a tree's hard link names is there, placed earlier. */
  lemma TargetStands(tables: Tables, tree: R.Tree, path: Path)
    requires Sound(tables, tree) && R.Named(tree, path, HardLink)
    ensures Holds(tables, tree[path].owner)
    ensures var target := At(tables, tree[path].owner).target;
            && target in tree && tree[target].owner.Precedes(tree[path].owner)
            && tree[target].kind != Directory && Holds(tables, tree[target].owner)
  {
    TargetIsPlanned(tables, tree, path);
    assert Owned(tables, At(tables, tree[path].owner).target, tree[At(tables, tree[path].owner).target]);
  }

  /** What a planned hard link names now is what stood there when its own turn
      came: placed by the same entry, and of the same kind. */
  lemma LinkedAtItsOwnTime(tables: Tables, path: Path)
    requires AllWellFormed(tables) && PathsNamed(tables) && tables != []
    requires R.Replayed(tables).blocked == R.Nothing && Placeable(tables, R.Replayed(tables).tree)
    requires R.Named(R.Replayed(tables).tree, path, HardLink)
    ensures var tree := R.Replayed(tables).tree;
            && Holds(tables, tree[path].owner) && LinksNow(tables, tree[path].owner)
            && var target := At(tables, tree[path].owner).target;
               && target in tree && tree[target].owner.Precedes(tree[path].owner)
               && LinkedTo(tables, tree[path].owner).owner == tree[target].owner
               && LinkedTo(tables, tree[path].owner).kind == tree[target].kind
  {
    var tree := R.Replayed(tables).tree;
    ReplayedIsSound(tables);
    TargetStands(tables, tree, path);
    var o := tree[path].owner;
    var target := At(tables, o).target;
    StoodAtItsTurn(tables, o, target, tree[target].owner, tree[target].kind);
  }

  /** So the inode the plan gives a name is the one its entry made. */
  lemma {:induction false} PlannedAsMade(tables: Tables, path: Path)
    requires AllWellFormed(tables) && PathsNamed(tables) && tables != []
    requires R.Replayed(tables).blocked == R.Nothing && Placeable(tables, R.Replayed(tables).tree)
    requires path in R.Replayed(tables).tree
    ensures var tree := R.Replayed(tables).tree; InodeOf(tables, tree, path) == NodeInode(tables, tree[path])
    decreases R.Replayed(tables).tree[path].owner.layer, R.Replayed(tables).tree[path].owner.entry
  {
    var tree := R.Replayed(tables).tree;
    ReplayedIsSound(tables);
    assert Owned(tables, path, tree[path]);
    if tree[path].kind == HardLink {
      LinkedAtItsOwnTime(tables, path);
      TargetIsPlanned(tables, tree, path);
      var target := At(tables, tree[path].owner).target;
      assert Owned(tables, target, tree[target]);
      PlannedAsMade(tables, target);
    }
  }

  function Inodes(disk: W.Disk): Rootfs {
    map p | p in disk :: disk[p].inode
  }

  /** What is placed from a plan is what stands once each hard link has been made
      at its own entry's time, with the directories nothing in the tree names
      beside it. Two names share an inode in the one just when they do in the
      other. */
  lemma PlacedAsLinked(tables: Tables)
    requires AllWellFormed(tables) && PathsNamed(tables) && tables != []
    requires R.Replayed(tables).blocked == R.Nothing && Placeable(tables, R.Replayed(tables).tree)
    ensures var tree := R.Replayed(tables).tree;
            var planned, standing := Planned(tables, tree), Inodes(Standing(tables, tree));
            && (forall p | p in standing :: p in planned && planned[p] == standing[p])
            && (forall p | p in planned && p !in standing :: planned[p] == W.DirectoryInode && WantsDirectory(tree, p))
            && forall p, q | p in standing && q in standing :: planned[p] == planned[q] <==> standing[p] == standing[q]
  {
    var tree := R.Replayed(tables).tree;
    forall p | p in tree ensures InodeOf(tables, tree, p) == NodeInode(tables, tree[p]) {
      PlannedAsMade(tables, p);
    }
  }

  // ------------------------------------------------ one image

  lemma PlannedIsWhatStands(tables: Tables, tree: R.Tree)
    requires Shape(tree) && PathsNamed(tables)
    requires forall p | p in tree :: InodeOf(tables, tree, p) == NodeInode(tables, tree[p])
    ensures Planned(tables, tree) == Inodes(Standing(tables, tree))
  {
    forall p ensures IsPlanned(tree, p) <==> p in tree && p != ROOT_ENTRY {
      if p != [] && exists q | q in tree :: Under(p, q) {
        var q :| q in tree && Under(p, q);
        assert R.Named(tree, p, Directory);
      }
    }
  }

  /** Where the guards hold, that is name for name and inode for inode what
      walking the layers leaves. */
  lemma PlacingIsWalking(tables: Tables, host: W.Host)
    requires AllWellFormed(tables) && PathsNamed(tables) && tables != []
    requires R.Replayed(tables).blocked == R.Nothing && Placeable(tables, R.Replayed(tables).tree)
    requires Guarded(tables, host)
    ensures var walked := Walked(tables, host, |tables| - 1, |tables[|tables| - 1]|);
            walked.Walked? && Planned(tables, R.Replayed(tables).tree) == Inodes(walked.state.disk)
  {
    var l, e := |tables| - 1, |tables[|tables| - 1]|;
    assert R.FreeAt(tables, l, e);
    AgreementIsGuarded(tables, host, l, e);
    assert InvAt(tables, host, l, e);
    var tree := R.Replayed(tables).tree;
    forall p | p in tree ensures InodeOf(tables, tree, p) == NodeInode(tables, tree[p]) {
      PlannedAsMade(tables, p);
    }
    PlannedIsWhatStands(tables, tree);
  }

  /** So it is, on every host, for every image told plain from its tables. */
  lemma PlainImagesPlaceAlike(tables: Tables, host: W.Host)
    requires AllWellFormed(tables) && PathsNamed(tables) && tables != []
    requires R.Replayed(tables).blocked == R.Nothing && Placeable(tables, R.Replayed(tables).tree)
    requires PlainImage(tables)
    ensures var walked := Walked(tables, host, |tables| - 1, |tables[|tables| - 1]|);
            walked.Walked? && Planned(tables, R.Replayed(tables).tree) == Inodes(walked.state.disk)
  {
    PlainImagesMirror(tables, host);
    PlacingIsWalking(tables, host);
  }
}
