/** Placing an image straight from its plan. */
module Placement {
  import opened Paths
  import opened Layers
  import opened Owners
  import opened Links
  import R = Replay
  import W = Walk

  // ------------------------------------------------------------ what is planned

  ghost predicate BehindALink(tree: R.Tree, path: Path) {
    R.BlockedBy(tree, path).Some?
  }

  /** The directories the image needs: those the tree holds, and the ancestors
      nothing in it names. */
  ghost predicate WantsDirectory(tree: R.Tree, path: Path) {
    && !BehindALink(tree, path)
    && (R.Named(tree, path, Directory) || (path !in tree && path != [] && exists p | p in tree :: Under(path, p)))
  }

  /** Whether everything in the tree can be placed without walking the layers. */
  ghost predicate Placeable(tables: Tables, tree: R.Tree) {
    forall p | p in tree ::
      && !BehindALink(tree, p) && tree[p].kind != Sparse
      && (tree[p].kind == HardLink ==>
            && Holds(tables, tree[p].owner)
            && var target := At(tables, tree[p].owner).target;
               target in tree && !BehindALink(tree, target) && !tree[p].owner.Precedes(tree[target].owner))
  }

  /** What the image ends up with, by path: what each name's inode holds. */
  type Rootfs = map<Path, W.Inode>

  /** A hard link's inode is its target's. */
  ghost function InodeOf(tables: Tables, tree: R.Tree, path: Path): W.Inode
    requires path in tree
    decreases tree[path].owner.layer, tree[path].owner.entry
  {
    match tree[path].kind
    case Directory | Unsupported => W.DirectoryInode
    case File | Sparse => W.FileInode(tree[path].owner)
    case Symlink => W.LinkInode(tree[path].owner, R.LinkOf(tables, tree[path].owner))
    case HardLink =>
      if Holds(tables, tree[path].owner) && LinkHolds(tables, tree, path) &&
         var target := At(tables, tree[path].owner).target;
         target in tree && tree[target].owner.Precedes(tree[path].owner)
      then InodeOf(tables, tree, At(tables, tree[path].owner).target)
      else W.DirectoryInode
  }

  ghost predicate IsPlanned(tree: R.Tree, path: Path) {
    path != ROOT_ENTRY && (path in tree || WantsDirectory(tree, path))
  }

  ghost function PlannedInode(tables: Tables, tree: R.Tree, path: Path): W.Inode {
    if path in tree then InodeOf(tables, tree, path) else W.DirectoryInode
  }

  /** The disk holds what the plan says at every path of `done`, and nothing
      else. */
  ghost predicate Holding(tables: Tables, tree: R.Tree, disk: Rootfs, done: set<Path>) {
    && disk.Keys == done
    && forall p | p in done :: IsPlanned(tree, p) && disk[p] == PlannedInode(tables, tree, p)
  }

  // ------------------------------------------------------------ placing one thing

  predicate HasParent(disk: Rootfs, path: Path) {
    path != [] && (|path| == 1 || (Parent(path) in disk && disk[Parent(path)].DirectoryInode?))
  }

  /** `create_dir`: a path already taken counts as done. */
  function CreateDirectory(disk: Rootfs, path: Path): Option<Rootfs> {
    if path == ROOT_ENTRY || path in disk then Some(disk)
    else if HasParent(disk, path) then Some(disk[path := W.DirectoryInode])
    else None
  }

  /** An exclusive create, of a file or a symlink. */
  function CreateNew(disk: Rootfs, path: Path, inode: W.Inode): Option<Rootfs> {
    if path !in disk && HasParent(disk, path) then Some(disk[path := inode]) else None
  }

  function LinkNew(disk: Rootfs, path: Path, target: Path): Option<Rootfs> {
    if path !in disk && HasParent(disk, path) && target in disk && !disk[target].DirectoryInode?
    then Some(disk[path := disk[target]]) else None
  }

  // ------------------------------------------------------------ the plan is sound

  ghost predicate Sound(tables: Tables, tree: R.Tree) {
    Placeable(tables, tree) && OwnersMatch(tables, tree) && LinksHold(tables, tree)
  }

  lemma AncestorsArePlanned(tree: R.Tree, path: Path, a: Path)
    requires !BehindALink(tree, path) && path in tree && a != [] && Under(a, path) && a != ROOT_ENTRY
    ensures IsPlanned(tree, a) && WantsDirectory(tree, a)
  {
    assert path[..|a|] == a;
    assert forall i | 1 <= i < |a| :: a[..i] == path[..i];
  }

  /** Everything planned has a directory to go in, planned before it. */
  lemma ParentIsPlanned(tables: Tables, tree: R.Tree, path: Path)
    requires Sound(tables, tree) && IsPlanned(tree, path) && |path| > 1
    ensures WantsDirectory(tree, Parent(path)) && IsPlanned(tree, Parent(path))
    ensures PlannedInode(tables, tree, Parent(path)).DirectoryInode?
  {
    var a := Parent(path);
    if path in tree {
      RootIsNoParent(tables, tree, path, path);
      AncestorsArePlanned(tree, path, a);
    } else {
      var p :| p in tree && Under(path, p);
      UnderIsTransitive(a, path, p);
      RootIsNoParent(tables, tree, p, a);
      AncestorsArePlanned(tree, p, a);
    }
  }

  lemma RootIsNoParent(tables: Tables, tree: R.Tree, path: Path, a: Path)
    requires Sound(tables, tree) && path in tree && AtOrUnder(a, path) && |path| > 1
    ensures a != ROOT_ENTRY && (a != [] && |a| > 1 ==> Parent(a) != ROOT_ENTRY)
  {
    assert Owned(tables, path, tree[path]) && Ordinary(path[0]);
    if a != [] { assert a[0] == path[0]; }
  }

  lemma {:induction false} OnlyDirectoriesAreDirectories(tables: Tables, tree: R.Tree, path: Path)
    requires Sound(tables, tree) && path in tree && tree[path].kind != Directory
    ensures !InodeOf(tables, tree, path).DirectoryInode?
    decreases tree[path].owner.layer, tree[path].owner.entry
  {
    assert Owned(tables, path, tree[path]);
    if tree[path].kind == HardLink {
      assert LinkHolds(tables, tree, path);
      OnlyDirectoriesAreDirectories(tables, tree, At(tables, tree[path].owner).target);
    }
  }

  /** What a hard link names is planned, is no directory, and was placed by an
      earlier entry. */
  lemma TargetIsPlanned(tables: Tables, tree: R.Tree, path: Path)
    requires Sound(tables, tree) && R.Named(tree, path, HardLink)
    ensures Holds(tables, tree[path].owner)
    ensures var target := At(tables, tree[path].owner).target;
            && target in tree && tree[target].owner.Precedes(tree[path].owner)
            && tree[target].kind in {File, Symlink, HardLink}
            && InodeOf(tables, tree, path) == InodeOf(tables, tree, target)
            && !InodeOf(tables, tree, target).DirectoryInode?
  {
    assert Owned(tables, path, tree[path]) && LinkHolds(tables, tree, path);
    OnlyDirectoriesAreDirectories(tables, tree, At(tables, tree[path].owner).target);
  }

  // ------------------------------------------------------------ the lists

  /** The wanted directories, once each, in the map's order. */
  ghost predicate ListsDirectories(tree: R.Tree, dirs: seq<Path>) {
    && (forall p :: p in dirs <==> WantsDirectory(tree, p))
    && forall i, j | 0 <= i < j < |dirs| :: Before(dirs[i], dirs[j])
  }

  /** The owners of the tree's nodes of one kind, once each, in some order. */
  ghost predicate Lists(tables: Tables, tree: R.Tree, kind: Kind, owners: seq<Owner>) {
    && (forall p | R.Named(tree, p, kind) :: tree[p].owner in owners)
    && (forall i | 0 <= i < |owners| :: Holds(tables, owners[i]) && Placed(tables, tree, kind, owners[i]))
    && forall i, j | 0 <= i < j < |owners| :: owners[i] != owners[j]
  }

  ghost predicate Placed(tables: Tables, tree: R.Tree, kind: Kind, owner: Owner)
    requires Holds(tables, owner)
  {
    var path := At(tables, owner).path;
    R.Named(tree, path, kind) && tree[path].owner == owner
  }

  function PathsOf(tables: Tables, owners: seq<Owner>): set<Path>
    requires forall o | o in owners :: Holds(tables, o)
  {
    set o | o in owners :: At(tables, o).path
  }

  function DirectoriesOf(dirs: seq<Path>): set<Path> {
    (set p | p in dirs) - {ROOT_ENTRY}
  }

  ghost predicate InLinkOrder(owners: seq<Owner>) {
    forall i, j | 0 <= i < j < |owners| :: owners[i].Precedes(owners[j])
  }

  // ------------------------------------------------------------ placing it all

  /** The rootfs a plan is placed into. */
  class PlannedRootfs {
    var disk: Rootfs

    constructor ()
      ensures disk == map[]
    {
      disk := map[];
    }

    /** Parents come first, so each directory has one to go in and none is
        there already. */
    method CreateDirectories(dirs: seq<Path>, ghost tables: Tables, ghost tree: R.Tree) returns (ok: bool)
      requires Sound(tables, tree) && ListsDirectories(tree, dirs) && disk == map[]
      modifies this
      ensures ok && Holding(tables, tree, disk, DirectoriesOf(dirs))
    {
      var i := 0;
      while i < |dirs|
        invariant 0 <= i <= |dirs|
        invariant Holding(tables, tree, disk, DirectoriesOf(dirs[..i]))
      {
        TakeOneMore(dirs, i);
        DirectoryIsNext(tables, tree, dirs, i, disk);
        var made := CreateDirectory(disk, dirs[i]);
        if made.None? {
          return false;
        }
        disk := made.value;
        i := i + 1;
      }
      assert dirs[..i] == dirs;
      ok := true;
    }

    /** Symlinks, or file bodies, whichever order they come in. */
    method CreateAll(owners: seq<Owner>, kind: Kind, tables: Tables, ghost tree: R.Tree, ghost done: set<Path>)
      returns (ok: bool)
      requires Sound(tables, tree) && (kind == File || kind == Symlink) && Lists(tables, tree, kind, owners)
      requires Holding(tables, tree, disk, done)
      requires forall p | WantsDirectory(tree, p) && p != ROOT_ENTRY :: p in done
      requires AreApart(tables, owners, done)
      modifies this
      ensures ok && Holding(tables, tree, disk, done + PathsOf(tables, owners))
    {
      var i := 0;
      while i < |owners|
        invariant 0 <= i <= |owners|
        invariant Holding(tables, tree, disk, done + PathsOf(tables, owners[..i]))
      {
        TakeOneMore(owners, i);
        EntryIsNext(tables, tree, kind, owners, i, disk, done);
        var entry := At(tables, owners[i]);
        var inode := if kind == File then W.FileInode(owners[i]) else W.LinkInode(owners[i], entry.link);
        var made := CreateNew(disk, entry.path, inode);
        if made.None? {
          return false;
        }
        disk := made.value;
        i := i + 1;
      }
      assert owners[..i] == owners;
      ok := true;
    }

    /** Hard links, earlier entries first. */
    method LinkAll(owners: seq<Owner>, tables: Tables, ghost tree: R.Tree, ghost done: set<Path>) returns (ok: bool)
      requires Sound(tables, tree) && Lists(tables, tree, HardLink, owners) && InLinkOrder(owners)
      requires Holding(tables, tree, disk, done)
      requires forall p | IsPlanned(tree, p) && !R.Named(tree, p, HardLink) :: p in done
      requires AreApart(tables, owners, done)
      modifies this
      ensures ok && Holding(tables, tree, disk, done + PathsOf(tables, owners))
    {
      var i := 0;
      while i < |owners|
        invariant 0 <= i <= |owners|
        invariant Holding(tables, tree, disk, done + PathsOf(tables, owners[..i]))
      {
        TakeOneMore(owners, i);
        LinkIsNext(tables, tree, owners, i, disk, done);
        var entry := At(tables, owners[i]);
        var made := LinkNew(disk, entry.path, entry.target);
        if made.None? {
          return false;
        }
        disk := made.value;
        i := i + 1;
      }
      assert owners[..i] == owners;
      ok := true;
    }

    /** Directories, then symlinks, then bodies in whatever order the workers
        come to them, then hard links. Nothing on the way meets a taken path, a
        missing parent or a missing target, and what stands at the end is
        exactly the plan. */
    method Extract(dirs: seq<Path>, symlinks: seq<Owner>, bodies: seq<Owner>, links: seq<Owner>,
                   tables: Tables, ghost tree: R.Tree)
      returns (ok: bool)
      requires Sound(tables, tree) && disk == map[]
      requires ListsDirectories(tree, dirs) && Lists(tables, tree, Symlink, symlinks)
      requires Lists(tables, tree, File, bodies) && Lists(tables, tree, HardLink, links) && InLinkOrder(links)
      modifies this
      ensures ok && disk == Planned(tables, tree)
    {
      ghost var d, ds := DirectoriesOf(dirs), DirectoriesOf(dirs) + PathsOf(tables, symlinks);
      DirectoriesAreDone(tree, dirs);
      ApartFromDirectories(tables, tree, dirs, Symlink, symlinks);
      ok := CreateDirectories(dirs, tables, tree);
      if !ok { return; }
      ok := CreateAll(symlinks, Symlink, tables, tree, d);
      if !ok { return; }
      ApartFromDirectories(tables, tree, dirs, File, bodies);
      ApartFromOthers(tables, tree, File, bodies, Symlink, symlinks);
      ApartFromBoth(tables, bodies, d, PathsOf(tables, symlinks));
      ok := CreateAll(bodies, File, tables, tree, ds);
      if !ok { return; }
      ApartFromDirectories(tables, tree, dirs, HardLink, links);
      ApartFromOthers(tables, tree, HardLink, links, Symlink, symlinks);
      ApartFromBoth(tables, links, d, PathsOf(tables, symlinks));
      ApartFromOthers(tables, tree, HardLink, links, File, bodies);
      ApartFromBoth(tables, links, ds, PathsOf(tables, bodies));
      EverythingElseIsDone(tables, tree, dirs, symlinks, bodies);
      ok := LinkAll(links, tables, tree, ds + PathsOf(tables, bodies));
      EverythingIsDone(tables, tree, dirs, symlinks, bodies, links);
      EverythingIsPlanned(tables, tree, disk, ds + PathsOf(tables, bodies) + PathsOf(tables, links));
    }
  }

  ghost predicate AreApart(tables: Tables, owners: seq<Owner>, done: set<Path>) {
    forall o | o in owners :: Holds(tables, o) && At(tables, o).path !in done
  }

  /** A list of one kind is apart from the directories and from any list of
      another. */
  lemma ApartFromDirectories(tables: Tables, tree: R.Tree, dirs: seq<Path>, kind: Kind, owners: seq<Owner>)
    requires Sound(tables, tree) && ListsDirectories(tree, dirs) && Lists(tables, tree, kind, owners)
             && kind != Directory
    ensures AreApart(tables, owners, DirectoriesOf(dirs))
  {
    KindsStandApart(tables, tree, kind, owners);
  }

  lemma ApartFromOthers(tables: Tables, tree: R.Tree, kind: Kind, owners: seq<Owner>, other: Kind, others: seq<Owner>)
    requires Sound(tables, tree) && Lists(tables, tree, kind, owners) && Lists(tables, tree, other, others)
    requires kind != other && kind != Directory && other != Directory
    ensures AreApart(tables, owners, PathsOf(tables, others))
  {
    KindsStandApart(tables, tree, kind, owners);
    KindsStandApart(tables, tree, other, others);
  }

  lemma ApartFromBoth(tables: Tables, owners: seq<Owner>, a: set<Path>, b: set<Path>)
    requires AreApart(tables, owners, a) && AreApart(tables, owners, b)
    ensures AreApart(tables, owners, a + b)
  {
  }

  lemma TakeOneMore<T>(s: seq<T>, i: nat)
    requires i < |s|
    ensures s[..i + 1] == s[..i] + [s[i]]
  {
  }

  /** Every directory is in the list of them. */
  lemma DirectoriesAreDone(tree: R.Tree, dirs: seq<Path>)
    requires ListsDirectories(tree, dirs)
    ensures forall p | WantsDirectory(tree, p) && p != ROOT_ENTRY :: p in DirectoriesOf(dirs)
  {
  }

  /** Together the lists are all that is planned. */
  lemma EverythingIsDone(tables: Tables, tree: R.Tree, dirs: seq<Path>, symlinks: seq<Owner>, bodies: seq<Owner>,
                         links: seq<Owner>)
    requires Sound(tables, tree) && ListsDirectories(tree, dirs) && Lists(tables, tree, Symlink, symlinks)
    requires Lists(tables, tree, File, bodies) && Lists(tables, tree, HardLink, links)
    ensures forall p | IsPlanned(tree, p) ::
              p in DirectoriesOf(dirs) + PathsOf(tables, symlinks) + PathsOf(tables, bodies) + PathsOf(tables, links)
  {
    EverythingElseIsDone(tables, tree, dirs, symlinks, bodies);
    KindsStandApart(tables, tree, HardLink, links);
  }

  /** No two kinds share a path. */
  lemma KindsStandApart(tables: Tables, tree: R.Tree, kind: Kind, owners: seq<Owner>)
    requires Sound(tables, tree) && Lists(tables, tree, kind, owners) && kind != Directory
    ensures forall o | o in owners ::
              R.Named(tree, At(tables, o).path, kind) && !WantsDirectory(tree, At(tables, o).path)
    ensures forall p | R.Named(tree, p, kind) :: p in PathsOf(tables, owners)
  {
  }

  lemma EverythingElseIsDone(tables: Tables, tree: R.Tree, dirs: seq<Path>, symlinks: seq<Owner>, bodies: seq<Owner>)
    requires Sound(tables, tree) && ListsDirectories(tree, dirs)
    requires Lists(tables, tree, Symlink, symlinks) && Lists(tables, tree, File, bodies)
    ensures forall p | IsPlanned(tree, p) && !R.Named(tree, p, HardLink) ::
              p in DirectoriesOf(dirs) + PathsOf(tables, symlinks) + PathsOf(tables, bodies)
  {
  }

  /** Everything the image ends up with. */
  ghost function Planned(tables: Tables, tree: R.Tree): Rootfs {
    map p | p in PlannedPaths(tree) :: PlannedInode(tables, tree, p)
  }

  /** The paths of the tree, and those on the way to them. */
  ghost function PlannedPaths(tree: R.Tree): (r: set<Path>)
    ensures forall p :: p in r <==> IsPlanned(tree, p)
  {
    var above := set p, a | p in tree && a in Ancestors(p) :: a;
    var all := tree.Keys + above;
    assert forall p | IsPlanned(tree, p) :: p in all by {
      forall p | IsPlanned(tree, p) ensures p in all {
        if p !in tree {
          var q :| q in tree && Under(p, q);
          assert p in Ancestors(q);
        }
      }
    }
    set p | p in all && IsPlanned(tree, p)
  }

  /** Once every planned path is done the rootfs is the planned one. */
  lemma EverythingIsPlanned(tables: Tables, tree: R.Tree, disk: Rootfs, done: set<Path>)
    requires Holding(tables, tree, disk, done) && forall p | IsPlanned(tree, p) :: p in done
    ensures disk == Planned(tables, tree)
  {
    assert disk.Keys == PlannedPaths(tree);
  }

  lemma DirectoryIsNext(tables: Tables, tree: R.Tree, dirs: seq<Path>, i: nat, disk: Rootfs)
    requires Sound(tables, tree) && ListsDirectories(tree, dirs) && i < |dirs|
    requires Holding(tables, tree, disk, DirectoriesOf(dirs[..i]))
    ensures CreateDirectory(disk, dirs[i]).Some?
    ensures Holding(tables, tree, CreateDirectory(disk, dirs[i]).value, DirectoriesOf(dirs[..i] + [dirs[i]]))
  {
    var p := dirs[i];
    assert p in dirs && WantsDirectory(tree, p);
    if p != ROOT_ENTRY {
      LessIsTotal(Spell(p), Spell(p));
      assert p !in dirs[..i];
      if |p| > 1 {
        ParentIsPlanned(tables, tree, p);
        var a := Parent(p);
        var k :| 0 <= k < |dirs| && dirs[k] == a;
        UnderComesAfter(a, p);
        LessIsTotal(Spell(a), Spell(p));
        if k >= i { assert false; }
        assert dirs[..i][k] == a;
        assert a in DirectoriesOf(dirs[..i]);
      }
      assert p != [];
      assert PlannedInode(tables, tree, p).DirectoryInode?;
    }
  }

  lemma EntryIsNext(tables: Tables, tree: R.Tree, kind: Kind, owners: seq<Owner>, i: nat, disk: Rootfs, done: set<Path>)
    requires Sound(tables, tree) && (kind == File || kind == Symlink) && Lists(tables, tree, kind, owners)
             && i < |owners|
    requires Holding(tables, tree, disk, done + PathsOf(tables, owners[..i]))
    requires forall p | WantsDirectory(tree, p) && p != ROOT_ENTRY :: p in done
    requires At(tables, owners[i]).path !in done
    ensures var entry := At(tables, owners[i]);
            var inode := if kind == File then W.FileInode(owners[i]) else W.LinkInode(owners[i], entry.link);
            var made := CreateNew(disk, entry.path, inode);
            made.Some? && Holding(tables, tree, made.value, done + PathsOf(tables, owners[..i] + [owners[i]]))
  {
    PathsAreDistinct(tables, tree, kind, owners, i);
    HasItsParent(tables, tree, At(tables, owners[i]).path, disk, done + PathsOf(tables, owners[..i]));
  }

  lemma PathsAreDistinct(tables: Tables, tree: R.Tree, kind: Kind, owners: seq<Owner>, i: nat)
    requires Sound(tables, tree) && Lists(tables, tree, kind, owners) && i < |owners| && kind != Directory
    ensures var path := At(tables, owners[i]).path;
            && path !in PathsOf(tables, owners[..i])
            && R.Named(tree, path, kind) && tree[path].owner == owners[i] && IsPlanned(tree, path) && path != []
            && PathsOf(tables, owners[..i] + [owners[i]]) == PathsOf(tables, owners[..i]) + {path}
  {
    RootEntryIsNotCanonical();
    var path := At(tables, owners[i]).path;
    assert Placed(tables, tree, kind, owners[i]) && Owned(tables, path, tree[path]);
    forall j | 0 <= j < i ensures At(tables, owners[j]).path != path {
      assert Placed(tables, tree, kind, owners[j]);
    }
  }

  lemma HasItsParent(tables: Tables, tree: R.Tree, path: Path, disk: Rootfs, done: set<Path>)
    requires Sound(tables, tree) && IsPlanned(tree, path) && path != [] && Holding(tables, tree, disk, done)
    requires forall p | WantsDirectory(tree, p) && p != ROOT_ENTRY :: p in done
    ensures HasParent(disk, path)
  {
    if |path| > 1 {
      ParentIsPlanned(tables, tree, path);
    }
  }

  /** A link's target is one of the files and symlinks, or a link before it. */
  lemma TargetComesFirst(tables: Tables, tree: R.Tree, owners: seq<Owner>, i: nat)
    requires Sound(tables, tree) && Lists(tables, tree, HardLink, owners) && InLinkOrder(owners) && i < |owners|
    ensures var target := At(tables, owners[i]).target;
            && IsPlanned(tree, target)
            && (R.Named(tree, target, HardLink) ==> target in PathsOf(tables, owners[..i]))
  {
    RootEntryIsNotCanonical();
    PathsAreDistinct(tables, tree, HardLink, owners, i);
    var path, target := At(tables, owners[i]).path, At(tables, owners[i]).target;
    TargetIsPlanned(tables, tree, path);
    assert Owned(tables, target, tree[target]);
    if R.Named(tree, target, HardLink) {
      var k :| 0 <= k < |owners| && owners[k] == tree[target].owner;
      if k >= i { assert false; }
      assert owners[..i][k] == tree[target].owner;
    }
  }

  lemma LinkHasItsParent(tables: Tables, tree: R.Tree, path: Path, disk: Rootfs, done: set<Path>, seen: set<Path>)
    requires Sound(tables, tree) && IsPlanned(tree, path) && path != [] && Holding(tables, tree, disk, seen)
             && done <= seen
    requires forall p | IsPlanned(tree, p) && !R.Named(tree, p, HardLink) :: p in done
    ensures HasParent(disk, path)
  {
    HasItsParent(tables, tree, path, disk, seen);
  }

  lemma TargetIsSeen(tables: Tables, tree: R.Tree, owners: seq<Owner>, i: nat, done: set<Path>)
    requires Sound(tables, tree) && Lists(tables, tree, HardLink, owners) && InLinkOrder(owners) && i < |owners|
    requires forall p | IsPlanned(tree, p) && !R.Named(tree, p, HardLink) :: p in done
    ensures At(tables, owners[i]).target in done + PathsOf(tables, owners[..i])
  {
    TargetComesFirst(tables, tree, owners, i);
  }

  lemma LinkIsNext(tables: Tables, tree: R.Tree, owners: seq<Owner>, i: nat, disk: Rootfs, done: set<Path>)
    requires Sound(tables, tree) && Lists(tables, tree, HardLink, owners) && InLinkOrder(owners) && i < |owners|
    requires Holding(tables, tree, disk, done + PathsOf(tables, owners[..i]))
    requires forall p | IsPlanned(tree, p) && !R.Named(tree, p, HardLink) :: p in done
    requires At(tables, owners[i]).path !in done
    ensures var entry := At(tables, owners[i]);
            var made := LinkNew(disk, entry.path, entry.target);
            made.Some? && Holding(tables, tree, made.value, done + PathsOf(tables, owners[..i] + [owners[i]]))
  {
    var seen := done + PathsOf(tables, owners[..i]);
    var path := At(tables, owners[i]).path;
    PathsAreDistinct(tables, tree, HardLink, owners, i);
    LinkHasItsParent(tables, tree, path, disk, done, seen);
    TargetIsSeen(tables, tree, owners, i, done);
    LinkIsMade(tables, tree, path, disk, seen);
    UnionIsAssociative(done, PathsOf(tables, owners[..i]), {path});
  }

  lemma UnionIsAssociative<T>(a: set<T>, b: set<T>, c: set<T>)
    ensures a + (b + c) == a + b + c
  {
  }

  lemma LinkIsMade(tables: Tables, tree: R.Tree, path: Path, disk: Rootfs, seen: set<Path>)
    requires Sound(tables, tree) && R.Named(tree, path, HardLink) && Holds(tables, tree[path].owner)
    requires Holding(tables, tree, disk, seen) && HasParent(disk, path) && path !in seen && IsPlanned(tree, path)
    requires At(tables, tree[path].owner).target in seen
    ensures var made := LinkNew(disk, path, At(tables, tree[path].owner).target);
            made.Some? && Holding(tables, tree, made.value, seen + {path})
  {
    TargetIsPlanned(tables, tree, path);
  }

  // ------------------------------------------------------------ whole images

  /** Every image whose replay met nothing in the way, and whose tree can be
      placed, has a plan `Extract` carries out. */
  lemma ReplayedIsSound(tables: Tables)
    requires AllWellFormed(tables) && PathsNamed(tables)
    requires R.Replayed(tables).blocked == R.Nothing && Placeable(tables, R.Replayed(tables).tree)
    ensures Sound(tables, R.Replayed(tables).tree)
  {
    ReplayedIsOwned(tables);
    ReplayedLinksHold(tables);
  }
}
