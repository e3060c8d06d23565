/** Serving an image's namespace straight from its plan. */
module Serve {
  import opened Paths
  import L = Layers
  import opened Placement
  import opened Inodes
  import C = Changes
  import NS = Namespaces
  import W = Walk

  // ------------------------------------------------ the served tree and the placed one

  /** A node of the served tree stands for an inode of the placed rootfs. */
  predicate Stands(kind: Kind<Name>, inode: W.Inode) {
    match inode
    case DirectoryInode => kind.Directory?
    case FileInode(made) => kind == File(InLayer(made))
    case LinkInode(made, target) => kind == Symlink(target)
  }

  /** What the image calls the directory a path goes in. */
  function ParentKey(path: Path): Path
    requires path != []
  {
    if |path| == 1 then L.ROOT_ENTRY else Parent(path)
  }

  /** What each path has been given so far. `homes` says where each directory
      is, and `inos` which inode stands for each of the rootfs's. */
  datatype Given = Given(byPath: map<Path, int>, homes: map<int, Path>, inos: map<W.Inode, int>)

  /** The path has been given a node of its inode's sort. */
  ghost predicate HasNode(nodes: Table<Name>, byPath: map<Path, int>, disk: Rootfs, p: Path) {
    && p in disk && p in byPath && p != [] && p != L.ROOT_ENTRY
    && Live(nodes, byPath[p]) && byPath[p] != ROOT && Stands(nodes[byPath[p] - 1].kind, disk[p])
  }

  /** Its parent's node names it. */
  ghost predicate HasName(nodes: Table<Name>, byPath: map<Path, int>, disk: Rootfs, p: Path) {
    && p in byPath && p != [] && (|p| == 1 || Parent(p) in disk)
    && ParentKey(p) in byPath && Lookup(nodes, byPath[ParentKey(p)], Last(p)) == Some(byPath[p])
  }

  /** A directory's node is its own, anything else's its inode's. */
  ghost predicate HasItsOwn(g: Given, disk: Rootfs, p: Path) {
    && p in disk && p in g.byPath
    && if disk[p].DirectoryInode? then g.byPath[p] in g.homes && g.homes[g.byPath[p]] == p
       else disk[p] in g.inos && g.inos[disk[p]] == g.byPath[p]
  }

  ghost predicate PathServed(nodes: Table<Name>, g: Given, disk: Rootfs, p: Path) {
    HasNode(nodes, g.byPath, disk, p) && HasName(nodes, g.byPath, disk, p) && HasItsOwn(g, disk, p)
  }

  ghost predicate NameServed(nodes: Table<Name>, g: Given, disk: Rootfs, d: int, n: Name) {
    Lookup(nodes, d, n).Some? ==> d in g.homes && g.homes[d] + [n] in disk
  }

  ghost predicate InodeServed(nodes: Table<Name>, g: Given, disk: Rootfs, inode: W.Inode) {
    inode in g.inos ==> 1 <= g.inos[inode] <= |nodes| && exists p | p in disk :: disk[p] == inode
  }

  ghost predicate OneEach(inos: map<W.Inode, int>) {
    forall a, b | a in inos && b in inos && inos[a] == inos[b] :: a == b
  }

  ghost predicate PathsServed(nodes: Table<Name>, g: Given, disk: Rootfs) {
    forall p | p in disk :: PathServed(nodes, g, disk, p)
  }

  ghost predicate NamesServed(nodes: Table<Name>, g: Given, disk: Rootfs) {
    forall d, n :: NameServed(nodes, g, disk, d, n)
  }

  ghost predicate InodesServed(nodes: Table<Name>, g: Given, disk: Rootfs) {
    (forall inode :: InodeServed(nodes, g, disk, inode)) && OneEach(g.inos)
  }

  /** Each path of the rootfs leads to a node that stands for its inode, and
      nothing else leads anywhere. */
  ghost predicate Served(nodes: Table<Name>, g: Given, disk: Rootfs) {
    && IsDir(nodes, ROOT) && g.byPath.Keys == disk.Keys + {L.ROOT_ENTRY} && g.byPath[L.ROOT_ENTRY] == ROOT
    && ROOT in g.homes && g.homes[ROOT] == [] && (forall d | d in g.homes :: IsDir(nodes, d))
    && PathsServed(nodes, g, disk) && NamesServed(nodes, g, disk) && InodesServed(nodes, g, disk)
  }

  // ------------------------------------------------ one step of both

  lemma ParentThenLast(path: Path)
    requires path != []
    ensures Parent(path) + [Last(path)] == path
  {
  }

  /** Whatever the disk has room for, the tree has a place for. */
  lemma PlaceIsFree(nodes: Table<Name>, g: Given, disk: Rootfs, path: Path)
    requires Served(nodes, g, disk) && path !in disk && path != L.ROOT_ENTRY && HasParent(disk, path)
    ensures ParentKey(path) in g.byPath && IsFree(nodes, g.byPath[ParentKey(path)], Last(path))
    ensures g.byPath[ParentKey(path)] in g.homes
         && g.homes[g.byPath[ParentKey(path)]] == Parent(path)
  {
    var d := g.byPath[ParentKey(path)];
    if |path| > 1 { assert PathServed(nodes, g, disk, Parent(path)); }
    assert NameServed(nodes, g, disk, d, Last(path));
    ParentThenLast(path);
  }

  function GivenTo(g: Given, path: Path, inode: W.Inode, ino: int): Given {
    Given(g.byPath[path := ino],
          if inode.DirectoryInode? then g.homes[ino := path] else g.homes,
          if inode.DirectoryInode? then g.inos else g.inos[inode := ino])
  }

  /** `after` is `nodes` and perhaps one node more, with one name more, for
      `ino`, and every other node where it was. */
  ghost predicate Grows(nodes: Table<Name>, after: Table<Name>, parent: int, name: Name, ino: int) {
    && |nodes| <= |after| && IsFree(nodes, parent, name) && Live(after, ino)
    && (forall x | Live(nodes, x) :: Live(after, x) && SameSort(nodes[x - 1].kind, after[x - 1].kind))
    && (forall d, n :: Lookup(after, d, n) == if d == parent && n == name then Some(ino) else Lookup(nodes, d, n))
  }

  predicate SameSort(kind: Kind<Name>, other: Kind<Name>) {
    if kind.Directory? then other.Directory? else other == kind
  }

  lemma PushGrows(nodes: Table<Name>, parent: int, name: Name, node: Node<Name>)
    requires IsFree(nodes, parent, name) && IsFresh(node)
    ensures Link(nodes + [node], parent, name, |nodes| + 1).Some?
    ensures var after := Link(nodes + [node], parent, name, |nodes| + 1).value;
            && Grows(nodes, after, parent, name, |nodes| + 1)
            && |after| == |nodes| + 1 && SameSort(node.kind, after[|nodes|].kind)
  {
  }

  lemma LinkGrows(nodes: Table<Name>, parent: int, name: Name, ino: int)
    requires IsFree(nodes, parent, name) && Live(nodes, ino) && !IsDir(nodes, ino)
    ensures Link(nodes, parent, name, ino).Some?
    ensures var after := Link(nodes, parent, name, ino).value;
            Grows(nodes, after, parent, name, ino) && |after| == |nodes|
  {
  }

  // What each part of `Served` needs of one name more.

  /** What a step gives a path: a node of its own to a directory or to an inode
      met for the first time, the one it has to an inode met before. */
  ghost predicate Gives(nodes: Table<Name>, g: Given, disk: Rootfs, inode: W.Inode, ino: int) {
    if ino > |nodes| then !inode.DirectoryInode? ==> inode !in g.inos
    else !inode.DirectoryInode? && inode in g.inos && g.inos[inode] == ino
  }

  lemma PathStays(nodes: Table<Name>, after: Table<Name>, g: Given, disk: Rootfs,
                  path: Path, inode: W.Inode, ino: int, p: Path)
    requires PathServed(nodes, g, disk, p) && path !in disk && path != [] && path != L.ROOT_ENTRY
    requires ParentKey(path) in g.byPath
    requires Grows(nodes, after, g.byPath[ParentKey(path)], Last(path), ino) && Gives(nodes, g, disk, inode, ino)
    requires g.byPath[ParentKey(p)] == g.byPath[ParentKey(path)] ==> Last(p) != Last(path)
    ensures PathServed(after, GivenTo(g, path, inode, ino), disk[path := inode], p)
  {
  }

  lemma PathArrives(nodes: Table<Name>, after: Table<Name>, g: Given, disk: Rootfs, path: Path, inode: W.Inode,
                    ino: int)
    requires path !in disk && path != L.ROOT_ENTRY && HasParent(disk, path) && ParentKey(path) in g.byPath
    requires Grows(nodes, after, g.byPath[ParentKey(path)], Last(path), ino) && ino != ROOT
    requires Stands(after[ino - 1].kind, inode)
    ensures PathServed(after, GivenTo(g, path, inode, ino), disk[path := inode], path)
  {
    assert ParentKey(path) != path;
    assert Lookup(after, g.byPath[ParentKey(path)], Last(path)) == Some(ino);
  }

  lemma NamesStay(nodes: Table<Name>, after: Table<Name>, g: Given, disk: Rootfs,
                  path: Path, inode: W.Inode, ino: int, d: int, n: Name)
    requires NameServed(nodes, g, disk, d, n) && path != [] && ParentKey(path) in g.byPath
    requires Grows(nodes, after, g.byPath[ParentKey(path)], Last(path), ino)
    requires g.byPath[ParentKey(path)] in g.homes && g.homes[g.byPath[ParentKey(path)]] == Parent(path)
    requires inode.DirectoryInode? ==> ino !in g.homes
    ensures NameServed(after, GivenTo(g, path, inode, ino), disk[path := inode], d, n)
  {
    if d == g.byPath[ParentKey(path)] && n == Last(path) {
      ParentThenLast(path);
    } else {
      assert Lookup(after, d, n) == Lookup(nodes, d, n);
    }
  }

  lemma InodesStay(nodes: Table<Name>, after: Table<Name>, g: Given, disk: Rootfs,
                   path: Path, inode: W.Inode, ino: int, i: W.Inode)
    requires InodeServed(nodes, g, disk, i) && path !in disk && 1 <= ino <= |after| && |nodes| <= |after|
    ensures InodeServed(after, GivenTo(g, path, inode, ino), disk[path := inode], i)
  {
    if i in g.inos && i != inode {
      var p :| p in disk && disk[p] == i;
      assert disk[path := inode][p] == i;
    }
    assert disk[path := inode][path] == inode;
  }

  /** A step of the placed rootfs and the served tree together. */
  ghost predicate StepsTo(nodes: Table<Name>, after: Table<Name>, g: Given, disk: Rootfs,
                          path: Path, inode: W.Inode, ino: int) {
    && Served(nodes, g, disk) && path !in disk && path != L.ROOT_ENTRY && HasParent(disk, path)
    && ParentKey(path) in g.byPath && Grows(nodes, after, g.byPath[ParentKey(path)], Last(path), ino)
    && Gives(nodes, g, disk, inode, ino) && Stands(after[ino - 1].kind, inode) && 1 < ino
  }

  lemma NewNameIsAnother(nodes: Table<Name>, g: Given, disk: Rootfs, path: Path, p: Path)
    requires Served(nodes, g, disk) && path !in disk && path != L.ROOT_ENTRY && HasParent(disk, path) && p in disk
    ensures ParentKey(path) in g.byPath && PathServed(nodes, g, disk, p)
    ensures g.byPath[ParentKey(p)] == g.byPath[ParentKey(path)] ==> Last(p) != Last(path)
  {
    PlaceIsFree(nodes, g, disk, path);
    assert PathServed(nodes, g, disk, p);
  }

  lemma StepKeepsPaths(nodes: Table<Name>, after: Table<Name>, g: Given, disk: Rootfs, path: Path, inode: W.Inode,
                       ino: int)
    requires StepsTo(nodes, after, g, disk, path, inode, ino)
    ensures PathsServed(after, GivenTo(g, path, inode, ino), disk[path := inode])
  {
    var given, more := GivenTo(g, path, inode, ino), disk[path := inode];
    forall p | p in more ensures PathServed(after, given, more, p) {
      if p == path {
        PathArrives(nodes, after, g, disk, path, inode, ino);
      } else {
        NewNameIsAnother(nodes, g, disk, path, p);
        PathStays(nodes, after, g, disk, path, inode, ino, p);
      }
    }
  }

  lemma StepKeepsNames(nodes: Table<Name>, after: Table<Name>, g: Given, disk: Rootfs, path: Path, inode: W.Inode,
                       ino: int)
    requires StepsTo(nodes, after, g, disk, path, inode, ino)
    ensures NamesServed(after, GivenTo(g, path, inode, ino), disk[path := inode])
  {
    PlaceIsFree(nodes, g, disk, path);
    var given, more := GivenTo(g, path, inode, ino), disk[path := inode];
    forall d, n ensures NameServed(after, given, more, d, n) {
      assert NameServed(nodes, g, disk, d, n);
      NamesStay(nodes, after, g, disk, path, inode, ino, d, n);
    }
  }

  lemma StepKeepsInodes(nodes: Table<Name>, after: Table<Name>, g: Given, disk: Rootfs, path: Path, inode: W.Inode,
                        ino: int)
    requires StepsTo(nodes, after, g, disk, path, inode, ino)
    ensures InodesServed(after, GivenTo(g, path, inode, ino), disk[path := inode])
  {
    var given, more := GivenTo(g, path, inode, ino), disk[path := inode];
    forall i ensures InodeServed(after, given, more, i) {
      assert InodeServed(nodes, g, disk, i);
      InodesStay(nodes, after, g, disk, path, inode, ino, i);
    }
    forall i | i in g.inos ensures g.inos[i] <= |nodes| {
      assert InodeServed(nodes, g, disk, i);
    }
  }

  lemma StepKeepsHomes(nodes: Table<Name>, after: Table<Name>, g: Given, disk: Rootfs, path: Path, inode: W.Inode,
                       ino: int)
    requires StepsTo(nodes, after, g, disk, path, inode, ino)
    ensures var given := GivenTo(g, path, inode, ino);
            && IsDir(after, ROOT) && ROOT in given.homes && given.homes[ROOT] == []
            && (forall d | d in given.homes :: IsDir(after, d))
            && given.byPath[L.ROOT_ENTRY] == ROOT
  {
    forall d | IsDir(nodes, d) ensures IsDir(after, d) {
      assert Live(nodes, d);
    }
  }

  lemma StepIsServed(nodes: Table<Name>, after: Table<Name>, g: Given, disk: Rootfs, path: Path, inode: W.Inode,
                     ino: int)
    requires StepsTo(nodes, after, g, disk, path, inode, ino)
    ensures Served(after, GivenTo(g, path, inode, ino), disk[path := inode])
  {
    StepKeepsPaths(nodes, after, g, disk, path, inode, ino);
    StepKeepsNames(nodes, after, g, disk, path, inode, ino);
    StepKeepsInodes(nodes, after, g, disk, path, inode, ino);
    StepKeepsHomes(nodes, after, g, disk, path, inode, ino);
  }

  // ------------------------------------------------------------ steps of the build

  datatype Aspect = AsATree | AsTheRootfs

  ghost predicate IsIn(aspect: Aspect, nodes: Table<Name>, g: Given, disk: Rootfs) {
    match aspect
    case AsATree => C.IsATree(nodes)
    case AsTheRootfs => Served(nodes, g, disk)
  }

  /** The table is a tree, and the rootfs as far as it goes. Said of each aspect,
      so that neither is taken apart where both are only passed on. */
  ghost predicate Together(nodes: Table<Name>, g: Given, disk: Rootfs) {
    forall aspect :: IsIn(aspect, nodes, g, disk)
  }

  lemma TogetherMeans(nodes: Table<Name>, g: Given, disk: Rootfs)
    ensures Together(nodes, g, disk) <==> C.IsATree(nodes) && Served(nodes, g, disk)
  {
    if Together(nodes, g, disk) {
      assert IsIn(AsATree, nodes, g, disk) && IsIn(AsTheRootfs, nodes, g, disk);
    }
  }

  lemma PushedTogether(nodes: Table<Name>, g: Given, disk: Rootfs, path: Path, inode: W.Inode, node: Node<Name>)
    requires Together(nodes, g, disk) && path !in disk && path != L.ROOT_ENTRY && HasParent(disk, path)
    requires IsFresh(node) && Stands(node.kind, inode)
    requires forall p | p in disk :: inode.DirectoryInode? || disk[p] != inode
    ensures ParentKey(path) in g.byPath
    ensures var after := Link(nodes + [node], g.byPath[ParentKey(path)], Last(path), |nodes| + 1);
            after.Some? && Together(after.value, GivenTo(g, path, inode, |nodes| + 1), disk[path := inode])
  {
    TogetherMeans(nodes, g, disk);
    PlaceIsFree(nodes, g, disk, path);
    var parent, name, ino := g.byPath[ParentKey(path)], Last(path), |nodes| + 1;
    PushGrows(nodes, parent, name, node);
    assert InodeServed(nodes, g, disk, inode);
    StepIsServed(nodes, Link(nodes + [node], parent, name, ino).value, g, disk, path, inode, ino);
    PushedIsATree(nodes, parent, name, node);
    var after := Link(nodes + [node], parent, name, ino).value;
    TogetherMeans(after, GivenTo(g, path, inode, ino), disk[path := inode]);
  }

  lemma PushedIsATree(nodes: Table<Name>, parent: int, name: Name, node: Node<Name>)
    requires C.IsATree(nodes) && IsFree(nodes, parent, name) && IsFresh(node)
    ensures Link(nodes + [node], parent, name, |nodes| + 1).Some?
    ensures C.IsATree(Link(nodes + [node], parent, name, |nodes| + 1).value)
  {
    var rank: int -> nat :| NS.IsTree(View(nodes), rank);
    C.PushedKeepsTheTree(nodes, rank, parent, name, node);
  }

  lemma LinkedIsATree(nodes: Table<Name>, ino: int, parent: int, name: Name)
    requires C.IsATree(nodes) && IsFree(nodes, parent, name) && Live(nodes, ino) && !IsDir(nodes, ino)
    ensures Link(nodes, parent, name, ino).Some? && C.IsATree(Link(nodes, parent, name, ino).value)
  {
    C.LinkedToKeepsTheTree(nodes, ino, parent, name);
  }

  lemma NodeOfAnInode(nodes: Table<Name>, g: Given, disk: Rootfs, target: Path)
    requires PathServed(nodes, g, disk, target) && !disk[target].DirectoryInode?
    ensures Live(nodes, g.byPath[target]) && !IsDir(nodes, g.byPath[target])
    ensures 1 < g.byPath[target] && Gives(nodes, g, disk, disk[target], g.byPath[target])
    ensures Stands(nodes[g.byPath[target] - 1].kind, disk[target])
  {
  }

  lemma TargetHasNode(nodes: Table<Name>, g: Given, disk: Rootfs, target: Path)
    requires Served(nodes, g, disk) && target in disk && !disk[target].DirectoryInode?
    ensures target in g.byPath && Live(nodes, g.byPath[target]) && !IsDir(nodes, g.byPath[target])
            && 1 < g.byPath[target]
    ensures Gives(nodes, g, disk, disk[target], g.byPath[target])
    ensures Stands(nodes[g.byPath[target] - 1].kind, disk[target])
  {
    assert PathServed(nodes, g, disk, target);
    NodeOfAnInode(nodes, g, disk, target);
  }

  lemma LinkedTogether(nodes: Table<Name>, g: Given, disk: Rootfs, path: Path, target: Path)
    requires Together(nodes, g, disk) && path != L.ROOT_ENTRY && LinkNew(disk, path, target).Some?
    ensures ParentKey(path) in g.byPath && target in g.byPath && Live(nodes, g.byPath[target])
    ensures var after := Link(nodes, g.byPath[ParentKey(path)], Last(path), g.byPath[target]);
            && after.Some?
            && Together(after.value, GivenTo(g, path, disk[target], g.byPath[target]), disk[path := disk[target]])
  {
    TogetherMeans(nodes, g, disk);
    PlaceIsFree(nodes, g, disk, path);
    TargetHasNode(nodes, g, disk, target);
    var parent, name, ino := g.byPath[ParentKey(path)], Last(path), g.byPath[target];
    LinkGrows(nodes, parent, name, ino);
    LinkedIsATree(nodes, ino, parent, name);
    StepIsServed(nodes, Link(nodes, parent, name, ino).value, g, disk, path, disk[target], ino);
    TogetherMeans(Link(nodes, parent, name, ino).value, GivenTo(g, path, disk[target], ino),
      disk[path := disk[target]]);
  }

  // ------------------------------------------------------------ what is served

  /** A path looked up component by component. */
  function Resolve(nodes: Table<Name>, from: int, path: Path): Option<int>
    decreases |path|
  {
    if path == [] then Some(from)
    else match Lookup(nodes, from, path[0])
      case None => None
      case Some(ino) => Resolve(nodes, ino, path[1..])
  }

  lemma {:induction false} ResolveByParent(nodes: Table<Name>, from: int, path: Path)
    requires path != []
    ensures Resolve(nodes, from, path)
         == match Resolve(nodes, from, Parent(path))
            case None => None
            case Some(d) => Lookup(nodes, d, Last(path))
    decreases |path|
  {
    if |path| > 1 {
      assert Parent(path)[1..] == Parent(path[1..]) && Parent(path)[0] == path[0];
      if Lookup(nodes, from, path[0]).Some? { ResolveByParent(nodes, Lookup(nodes, from, path[0]).value, path[1..]); }
    } else {
      assert path[1..] == [];
    }
  }

  lemma {:induction false} ResolvesToWhatWasGiven(nodes: Table<Name>, g: Given, disk: Rootfs, path: Path)
    requires Served(nodes, g, disk) && path != []
    ensures Resolve(nodes, ROOT, path) == if path in disk then Some(g.byPath[path]) else None
    decreases |path|
  {
    ResolveByParent(nodes, ROOT, path);
    var up := Parent(path);
    if |path| > 1 { ResolvesToWhatWasGiven(nodes, g, disk, up); }
    if path in disk {
      assert PathServed(nodes, g, disk, path);
    } else if |path| == 1 || up in disk {
      var d := if |path| == 1 then ROOT else g.byPath[up];
      assert NameServed(nodes, g, disk, d, Last(path));
      if |path| > 1 { assert PathServed(nodes, g, disk, up); }
      ParentThenLast(path);
    }
  }

  /** Every path leads to a node just when the rootfs has it, the node is of its
      inode's sort, holding the same body or the same target, and two paths lead
      to one node just when they share an inode. */
  ghost predicate IsServedAs(nodes: Table<Name>, disk: Rootfs) {
    && (forall p: Path | p != [] :: Resolve(nodes, ROOT, p).Some? <==> p in disk)
    && (forall p | p in disk :: LeadsTo(nodes, disk, p))
    && (forall p, q | p in disk && q in disk :: SharesAsPlaced(nodes, disk, p, q))
  }

  ghost predicate LeadsTo(nodes: Table<Name>, disk: Rootfs, p: Path) {
    && p in disk && Resolve(nodes, ROOT, p).Some?
    && var ino := Resolve(nodes, ROOT, p).value;
       Live(nodes, ino) && Stands(nodes[ino - 1].kind, disk[p])
  }

  ghost predicate SharesAsPlaced(nodes: Table<Name>, disk: Rootfs, p: Path, q: Path) {
    p in disk && q in disk &&
    (Resolve(nodes, ROOT, p) == Resolve(nodes, ROOT, q) <==> p == q || (disk[p] == disk[q] && !disk[p].DirectoryInode?))
  }

  lemma TwoPathsShare(nodes: Table<Name>, g: Given, disk: Rootfs, p: Path, q: Path)
    requires HasNode(nodes, g.byPath, disk, p) && HasNode(nodes, g.byPath, disk, q)
    requires HasItsOwn(g, disk, p) && HasItsOwn(g, disk, q) && OneEach(g.inos)
    ensures g.byPath[p] == g.byPath[q] <==> p == q || (disk[p] == disk[q] && !disk[p].DirectoryInode?)
  {
  }

  lemma ServedSharesAsPlaced(nodes: Table<Name>, g: Given, disk: Rootfs, p: Path, q: Path)
    requires Served(nodes, g, disk) && p in disk && q in disk
    ensures SharesAsPlaced(nodes, disk, p, q)
  {
    assert PathServed(nodes, g, disk, p) && PathServed(nodes, g, disk, q);
    ResolvesToWhatWasGiven(nodes, g, disk, p);
    ResolvesToWhatWasGiven(nodes, g, disk, q);
    TwoPathsShare(nodes, g, disk, p, q);
  }

  lemma NodeLeadsTo(nodes: Table<Name>, byPath: map<Path, int>, disk: Rootfs, p: Path)
    requires HasNode(nodes, byPath, disk, p) && Resolve(nodes, ROOT, p) == Some(byPath[p])
    ensures LeadsTo(nodes, disk, p)
  {
  }

  lemma ServedLeadsTo(nodes: Table<Name>, g: Given, disk: Rootfs, p: Path)
    requires Served(nodes, g, disk) && p in disk
    ensures LeadsTo(nodes, disk, p)
  {
    ResolvesToWhatWasGiven(nodes, g, disk, p);
    assert PathServed(nodes, g, disk, p);
    NodeLeadsTo(nodes, g.byPath, disk, p);
  }

  lemma ServedIsServedAs(nodes: Table<Name>, g: Given, disk: Rootfs)
    requires Served(nodes, g, disk)
    ensures IsServedAs(nodes, disk)
  {
    forall p: Path | p != [] ensures Resolve(nodes, ROOT, p).Some? <==> p in disk {
      ResolvesToWhatWasGiven(nodes, g, disk, p);
    }
    forall p | p in disk ensures LeadsTo(nodes, disk, p) {
      ServedLeadsTo(nodes, g, disk, p);
    }
    forall p, q | p in disk && q in disk ensures SharesAsPlaced(nodes, disk, p, q) {
      ServedSharesAsPlaced(nodes, g, disk, p, q);
    }
  }

  /** Each path is known by the node it leads to. */
  ghost predicate KnowsPaths(nodes: Table<Name>, byPath: map<Path, int>, disk: Rootfs) {
    forall p | p in disk :: p in byPath && Resolve(nodes, ROOT, p) == Some(byPath[p])
  }

  lemma ServedKnowsPaths(nodes: Table<Name>, g: Given, disk: Rootfs)
    requires Served(nodes, g, disk)
    ensures KnowsPaths(nodes, g.byPath, disk)
  {
    forall p | p in disk ensures p in g.byPath && Resolve(nodes, ROOT, p) == Some(g.byPath[p]) {
      assert PathServed(nodes, g, disk, p);
      ResolvesToWhatWasGiven(nodes, g, disk, p);
    }
  }

  lemma {:induction false} FindIsResolve(nodes: Table<Name>, from: int, path: Path)
    ensures NS.Find(View(nodes), from, path) == Resolve(nodes, from, path)
    decreases |path|
  {
    if path != [] {
      assert ShowsPlace(nodes, View(nodes).names, NS.Place(from, path[0]));
      if Lookup(nodes, from, path[0]).Some? {
        FindIsResolve(nodes, Lookup(nodes, from, path[0]).value, path[1..]);
      }
    }
  }

  lemma RootIsADirectory(nodes: Table<Name>)
    requires C.IsATree(nodes)
    ensures IsDir(nodes, ROOT)
  {
    var rank: int -> nat :| NS.IsTree(View(nodes), rank);
    assert ShowsAt(nodes, View(nodes), ROOT);
  }

  lemma LiveIsReached(nodes: Table<Name>, ino: int) returns (path: Path)
    requires C.IsATree(nodes) && Live(nodes, ino)
    ensures Resolve(nodes, ROOT, path) == Some(ino)
  {
    var rank: int -> nat :| NS.IsTree(View(nodes), rank);
    assert ShowsAt(nodes, View(nodes), ino);
    path := NS.EverythingIsReached(View(nodes), rank, ino);
    FindIsResolve(nodes, ROOT, path);
  }

  /** Every file has a path that leads to it. */
  lemma FilesHavePaths(nodes: Table<Name>, disk: Rootfs, ino: int) returns (path: Path)
    requires C.IsATree(nodes) && IsServedAs(nodes, disk) && Live(nodes, ino) && nodes[ino - 1].kind.File?
    ensures path in disk && Resolve(nodes, ROOT, path) == Some(ino) && Stands(nodes[ino - 1].kind, disk[path])
  {
    path := LiveIsReached(nodes, ino);
    RootIsADirectory(nodes);
    assert LeadsTo(nodes, disk, path);
  }
}
