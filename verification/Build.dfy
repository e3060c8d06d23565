/** Building the served tree from a plan. */
module Build {
  import opened Paths
  import opened Placement
  import opened Inodes
  import opened Serve
  import C = Changes
  import L = Layers
  import R = Replay
  import S = Served
  import W = Walk

  /** An inode the rootfs has met already was met at its own path. */
  lemma MetForTheFirstTime(tables: L.Tables, tree: R.Tree, kind: L.Kind, owners: seq<L.Owner>, i: nat, disk: Rootfs,
                           done: set<Path>)
    requires Sound(tables, tree) && (kind == L.File || kind == L.Symlink) && Lists(tables, tree, kind, owners)
             && i < |owners|
    requires Holding(tables, tree, disk, done) && L.At(tables, owners[i]).path !in disk
    requires forall p | p in done :: !R.Named(tree, p, L.HardLink)
    ensures forall p | p in disk :: disk[p] != InodeFor(kind, owners[i], L.At(tables, owners[i]))
  {
  }

  function InodeFor(kind: L.Kind, owner: L.Owner, entry: L.Entry): W.Inode {
    if kind == L.File then W.FileInode(owner) else W.LinkInode(owner, entry.link)
  }

  function NodeFor(kind: L.Kind, owner: L.Owner, entry: L.Entry): Node<Name> {
    if kind == L.File then Node(File(InLayer(owner)), 0) else Node(Symlink(entry.link), 0)
  }

  /** The tree, the paths it has been given and the rootfs the plan would be
      placed into, all as far as `done`. */
  ghost predicate AsFar(tables: L.Tables, tree: R.Tree, nodes: Table<Name>, g: Given, disk: Rootfs, done: set<Path>) {
    Together(nodes, g, disk) && Holding(tables, tree, disk, done)
  }

  /** The image's tree as it is put together. */
  class Builder {
    const served: S.Tree<Name>
    var byPath: map<Path, int>
    ghost var given: Given
    ghost var disk: Rootfs

    constructor ()
      ensures fresh(served) && Together(served.nodes, given, disk) && disk == map[] && given.byPath == byPath
    {
      served := new S.Tree<Name>();
      byPath := map[L.ROOT_ENTRY := ROOT];
      given := Given(map[L.ROOT_ENTRY := ROOT], map[ROOT := []], map[]);
      disk := map[];
      new;
      C.AnEmptyRootIsATree<Name>();
      assert forall d, n :: Lookup(served.nodes, d, n).None?;
      TogetherMeans(served.nodes, given, disk);
    }

    /** A name for `ino` in the directory the path goes in, and the path
        remembered. */
    method Attach(path: Path, ino: int) returns (ok: bool)
      requires Live(served.nodes, ino)
      modifies served, `byPath
      ensures ok <==> path != [] && path != L.ROOT_ENTRY && ParentKey(path) in old(byPath)
                      && Link(old(served.nodes), old(byPath)[ParentKey(path)], Last(path), ino).Some?
      ensures ok ==> byPath == old(byPath)[path := ino]
      ensures ok ==> served.nodes == Link(old(served.nodes), old(byPath)[ParentKey(path)], Last(path), ino).value
    {
      if path == [] || path == L.ROOT_ENTRY || ParentKey(path) !in byPath { return false; }
      ok := served.Link(byPath[ParentKey(path)], Last(path), ino);
      if ok { byPath := byPath[path := ino]; }
    }

    /** A node of its own for a path the rootfs has room for. */
    method AttachNew(path: Path, node: Node<Name>, ghost inode: W.Inode) returns (ok: bool)
      requires Together(served.nodes, given, disk) && given.byPath == byPath
      requires path !in disk && path != L.ROOT_ENTRY && HasParent(disk, path)
      requires IsFresh(node) && Stands(node.kind, inode)
      requires forall p | p in disk :: inode.DirectoryInode? || disk[p] != inode
      modifies this, served
      ensures ok && Together(served.nodes, given, disk) && given.byPath == byPath
      ensures disk == old(disk)[path := inode]
    {
      PushedTogether(served.nodes, given, disk, path, inode, node);
      var ino := served.Push(node);
      ok := Attach(path, ino);
      given, disk := GivenTo(given, path, inode, ino), disk[path := inode];
    }

    /** Another name for what `target` has been given. */
    method AttachLink(path: Path, target: Path) returns (ok: bool)
      requires Together(served.nodes, given, disk) && given.byPath == byPath
      requires path != L.ROOT_ENTRY && LinkNew(disk, path, target).Some?
      modifies this, served
      ensures ok && Together(served.nodes, given, disk) && given.byPath == byPath
      ensures disk == LinkNew(old(disk), path, target).value
    {
      LinkedTogether(served.nodes, given, disk, path, target);
      if target !in byPath { return false; }
      var ino := byPath[target];
      ok := Attach(path, ino);
      given, disk := GivenTo(given, path, disk[target], ino), disk[path := disk[target]];
    }

    /** Parents before children, the root being there already. */
    method AttachDirectories(dirs: seq<Path>, ghost tables: L.Tables, ghost tree: R.Tree) returns (ok: bool)
      requires Sound(tables, tree) && ListsDirectories(tree, dirs) && disk == map[]
      requires Together(served.nodes, given, disk) && given.byPath == byPath
      modifies this, served
      ensures ok && AsFar(tables, tree, served.nodes, given, disk, DirectoriesOf(dirs)) && given.byPath == byPath
    {
      var i := 0;
      while i < |dirs|
        invariant 0 <= i <= |dirs| && given.byPath == byPath
        invariant AsFar(tables, tree, served.nodes, given, disk, DirectoriesOf(dirs[..i]))
      {
        TakeOneMore(dirs, i);
        DirectoryIsNext(tables, tree, dirs, i, disk);
        if dirs[i] != L.ROOT_ENTRY {
          DirectoryIsNew(tree, dirs, i);
          ok := AttachNew(dirs[i], EmptyDirectory(), W.DirectoryInode);
          if !ok { return; }
        }
        i := i + 1;
      }
      assert dirs[..i] == dirs;
      ok := true;
    }

    /** File bodies, or symlinks. */
    method AttachAll(owners: seq<L.Owner>, kind: L.Kind, tables: L.Tables, ghost tree: R.Tree, ghost done: set<Path>)
      returns (ok: bool)
      requires Sound(tables, tree) && (kind == L.File || kind == L.Symlink) && Lists(tables, tree, kind, owners)
      requires AsFar(tables, tree, served.nodes, given, disk, done) && given.byPath == byPath
      requires forall p | WantsDirectory(tree, p) && p != L.ROOT_ENTRY :: p in done
      requires AreApart(tables, owners, done)
      requires forall p | p in done :: !R.Named(tree, p, L.HardLink)
      modifies this, served
      ensures ok && AsFar(tables, tree, served.nodes, given, disk, done + PathsOf(tables, owners))
              && given.byPath == byPath
    {
      var i := 0;
      while i < |owners|
        invariant 0 <= i <= |owners| && given.byPath == byPath
        invariant AsFar(tables, tree, served.nodes, given, disk, done + PathsOf(tables, owners[..i]))
      {
        TakeOneMore(owners, i);
        EntryCanBeAttached(tables, tree, kind, owners, i, disk, done);
        var entry := L.At(tables, owners[i]);
        ok := AttachNew(entry.path, NodeFor(kind, owners[i], entry), InodeFor(kind, owners[i], entry));
        if !ok { return; }
        i := i + 1;
      }
      assert owners[..i] == owners;
      ok := true;
    }

    /** By now there is a node for whatever a hard link names. */
    method AttachLinks(owners: seq<L.Owner>, tables: L.Tables, ghost tree: R.Tree, ghost done: set<Path>)
      returns (ok: bool)
      requires Sound(tables, tree) && Lists(tables, tree, L.HardLink, owners) && InLinkOrder(owners)
      requires AsFar(tables, tree, served.nodes, given, disk, done) && given.byPath == byPath
      requires forall p | IsPlanned(tree, p) && !R.Named(tree, p, L.HardLink) :: p in done
      requires AreApart(tables, owners, done)
      modifies this, served
      ensures ok && AsFar(tables, tree, served.nodes, given, disk, done + PathsOf(tables, owners))
              && given.byPath == byPath
    {
      var i := 0;
      while i < |owners|
        invariant 0 <= i <= |owners| && given.byPath == byPath
        invariant AsFar(tables, tree, served.nodes, given, disk, done + PathsOf(tables, owners[..i]))
      {
        TakeOneMore(owners, i);
        LinkCanBeAttached(tables, tree, owners, i, disk, done);
        ok := AttachLink(L.At(tables, owners[i]).path, L.At(tables, owners[i]).target);
        if !ok { return; }
        i := i + 1;
      }
      assert owners[..i] == owners;
      ok := true;
    }

    /** The served tree is the rootfs the plan would be placed into, name for
        name and inode for inode. */
    method Build(dirs: seq<Path>, bodies: seq<L.Owner>, symlinks: seq<L.Owner>, links: seq<L.Owner>,
                 tables: L.Tables, ghost tree: R.Tree)
      returns (ok: bool)
      requires Sound(tables, tree) && disk == map[]
      requires Together(served.nodes, given, disk) && given.byPath == byPath
      requires ListsDirectories(tree, dirs) && Lists(tables, tree, L.File, bodies)
      requires Lists(tables, tree, L.Symlink, symlinks) && Lists(tables, tree, L.HardLink, links) && InLinkOrder(links)
      modifies this, served
      ensures ok && C.IsATree(served.nodes) && IsServedAs(served.nodes, Planned(tables, tree))
      ensures KnowsPaths(served.nodes, byPath, Planned(tables, tree))
    {
      ghost var d, db := DirectoriesOf(dirs), DirectoriesOf(dirs) + PathsOf(tables, bodies);
      ghost var all := db + PathsOf(tables, symlinks);
      DirectoriesAreDone(tree, dirs);
      ApartFromDirectories(tables, tree, dirs, L.File, bodies);
      ok := AttachDirectories(dirs, tables, tree);
      if !ok { return; }
      NoLinksAmongDirectories(tree, dirs);
      ok := AttachAll(bodies, L.File, tables, tree, d);
      if !ok { return; }
      ApartFromDirectories(tables, tree, dirs, L.Symlink, symlinks);
      ApartFromOthers(tables, tree, L.Symlink, symlinks, L.File, bodies);
      ApartFromBoth(tables, symlinks, d, PathsOf(tables, bodies));
      NoLinksYet(tables, tree, L.File, bodies, |bodies|, d);
      assert bodies[..|bodies|] == bodies;
      ok := AttachAll(symlinks, L.Symlink, tables, tree, db);
      if !ok { return; }
      ApartFromDirectories(tables, tree, dirs, L.HardLink, links);
      ApartFromOthers(tables, tree, L.HardLink, links, L.File, bodies);
      ApartFromBoth(tables, links, d, PathsOf(tables, bodies));
      ApartFromOthers(tables, tree, L.HardLink, links, L.Symlink, symlinks);
      ApartFromBoth(tables, links, db, PathsOf(tables, symlinks));
      EverythingElseIsDone(tables, tree, dirs, symlinks, bodies);
      SwapUnions(d, PathsOf(tables, bodies), PathsOf(tables, symlinks));
      ok := AttachLinks(links, tables, tree, all);
      EverythingIsDone(tables, tree, dirs, symlinks, bodies, links);
      EverythingIsPlanned(tables, tree, disk, all + PathsOf(tables, links));
      TogetherMeans(served.nodes, given, disk);
      ServedIsServedAs(served.nodes, given, disk);
      ServedKnowsPaths(served.nodes, given, disk);
    }
  }

  lemma SwapUnions<T>(a: set<T>, b: set<T>, c: set<T>)
    ensures a + b + c == a + c + b
  {
  }

  lemma NoLinksAmongDirectories(tree: R.Tree, dirs: seq<Path>)
    requires ListsDirectories(tree, dirs)
    ensures forall p | p in DirectoriesOf(dirs) :: !R.Named(tree, p, L.HardLink)
  {
  }

  lemma EntryCanBeAttached(tables: L.Tables, tree: R.Tree, kind: L.Kind, owners: seq<L.Owner>, i: nat, disk: Rootfs,
                           done: set<Path>)
    requires Sound(tables, tree) && (kind == L.File || kind == L.Symlink) && Lists(tables, tree, kind, owners)
             && i < |owners|
    requires Holding(tables, tree, disk, done + PathsOf(tables, owners[..i]))
    requires forall p | WantsDirectory(tree, p) && p != L.ROOT_ENTRY :: p in done
    requires L.At(tables, owners[i]).path !in done
    requires forall p | p in done :: !R.Named(tree, p, L.HardLink)
    ensures var entry, inode := L.At(tables, owners[i]), InodeFor(kind, owners[i], L.At(tables, owners[i]));
            && entry.path !in disk && entry.path != L.ROOT_ENTRY && HasParent(disk, entry.path)
            && (forall p | p in disk :: disk[p] != inode)
            && Holding(tables, tree, disk[entry.path := inode], done + PathsOf(tables, owners[..i] + [owners[i]]))
  {
    EntryIsNext(tables, tree, kind, owners, i, disk, done);
    PathsAreDistinct(tables, tree, kind, owners, i);
    NoLinksYet(tables, tree, kind, owners, i, done);
    MetForTheFirstTime(tables, tree, kind, owners, i, disk, done + PathsOf(tables, owners[..i]));
  }

  lemma LinkCanBeAttached(tables: L.Tables, tree: R.Tree, owners: seq<L.Owner>, i: nat, disk: Rootfs, done: set<Path>)
    requires Sound(tables, tree) && Lists(tables, tree, L.HardLink, owners) && InLinkOrder(owners) && i < |owners|
    requires Holding(tables, tree, disk, done + PathsOf(tables, owners[..i]))
    requires forall p | IsPlanned(tree, p) && !R.Named(tree, p, L.HardLink) :: p in done
    requires L.At(tables, owners[i]).path !in done
    ensures var entry := L.At(tables, owners[i]);
            var made := LinkNew(disk, entry.path, entry.target);
            && made.Some? && entry.path != L.ROOT_ENTRY
            && Holding(tables, tree, made.value, done + PathsOf(tables, owners[..i] + [owners[i]]))
  {
    LinkIsNext(tables, tree, owners, i, disk, done);
    PathsAreDistinct(tables, tree, L.HardLink, owners, i);
  }

  lemma DirectoryIsNew(tree: R.Tree, dirs: seq<Path>, i: nat)
    requires ListsDirectories(tree, dirs) && i < |dirs|
    ensures dirs[i] !in DirectoriesOf(dirs[..i])
  {
    forall j | 0 <= j < i ensures dirs[..i][j] != dirs[i] {
      assert Before(dirs[j], dirs[i]);
      LessIsTotal(Spell(dirs[i]), Spell(dirs[i]));
    }
  }

  lemma NoLinksYet(tables: L.Tables, tree: R.Tree, kind: L.Kind, owners: seq<L.Owner>, i: nat, done: set<Path>)
    requires Sound(tables, tree) && Lists(tables, tree, kind, owners) && i <= |owners| && kind != L.HardLink
    requires forall p | p in done :: !R.Named(tree, p, L.HardLink)
    ensures forall p | p in done + PathsOf(tables, owners[..i]) :: !R.Named(tree, p, L.HardLink)
  {
  }
}
