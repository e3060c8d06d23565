/** Images that extract differently with the plan and without it: one for each
    way the guard can fail. */
module Partings {
  import opened Paths
  import opened Layers
  import opened History
  import opened Simulation
  import opened Mirror
  import R = Replay
  import W = Walk

  function Item(kind: Kind, path: Path): Entry {
    Entry(kind, path, [], [], 0, 0)
  }

  function LinkTo(path: Path, link: Bytes): Entry {
    Entry(Symlink, path, link, [], 0, 0)
  }

  /** One layer of some entries, none of them barred by what came before. */
  ghost predicate Parts(table: Table, host: W.Host) {
    && AllWellFormed([table]) && PathsNamed([table])
    && R.Replayed([table]).blocked == R.Nothing
    && !Mirrors([table], host)
  }

  lemma PartsByItsLastGuard(table: Table, host: W.Host)
    requires table != [] && AllWellFormed([table]) && PathsNamed([table])
    requires R.ReplayTo([table], 0, |table|).blocked == R.Nothing
    requires !GuardAt([table], host, 0, |table| - 1)
    ensures Parts(table, host)
  {
    ReplayMirrorsTheWalk([table], host);
  }

  /** What an entry that takes its path leaves, path by path. */
  lemma Takes(table: Table, e: nat)
    requires PathsNamed([table]) && e < |table| && table[e].path != [] && WhiteoutOf(table[e].path).None?
    requires table[e].kind == File || table[e].kind == Symlink
             || (table[e].kind == HardLink && table[e].target != table[e].path)
    requires R.ReplayTo([table], 0, e).blocked == R.Nothing
    requires R.InTheWay(R.ReplayTo([table], 0, e).tree, [table], table[e].path) == R.Nothing
    requires R.LinksSomewhere(R.ReplayTo([table], 0, e).tree, [table], table[e]) == R.Nothing
    ensures var before, after := R.ReplayTo([table], 0, e).tree, R.ReplayTo([table], 0, e + 1);
            var path, owner := table[e].path, Owner(0, e);
            && after.blocked == R.Nothing
            && after.tree == R.RemoveWhole(R.EnsureParents(before, path, owner), path)
                              [path := R.Node(table[e].kind, owner, Some(0))]
  {
    assert Holds([table], Owner(0, e));
  }

  const D: Name := [100]
  const D_C: Name := [100, 46, 99]
  const A: Name := [97]

  /** `d/a` and `d.c`, then a marker emptying the rootfs of what lies below:
      the scan asks about `d` with `d.c` in hand, and drops it. */
  function Straddling(): Table {
    [Item(File, [D, A]), Item(File, [D_C]), Item(File, [OPAQUE])]
  }

  lemma StraddlingIsReplayed()
    requires PathsNamed([Straddling()])
    ensures var end := R.ReplayTo([Straddling()], 0, 2);
            && end.blocked == R.Nothing
            && end.tree == map[[D] := R.Node(Directory, Owner(0, 0), None),
                               [D, A] := R.Node(File, Owner(0, 0), Some(0)),
                               [D_C] := R.Node(File, Owner(0, 1), Some(0))]
  {
    var table := Straddling();
    assert R.ReplayTo([table], 0, 0) == R.State(map[], R.Nothing);
    Takes(table, 0);
    assert [D, A][..1] == [D];
    assert Ancestors([D, A]) == {[D]};
    assert R.ReplayTo([table], 0, 1).tree == map[[D] := R.Node(Directory, Owner(0, 0), None),
                               [D, A] := R.Node(File, Owner(0, 0), Some(0))];
    Takes(table, 1);
    assert Ancestors([D_C]) == {};
  }

  lemma StraddlingIsWellFormed()
    ensures AllWellFormed([Straddling()]) && PathsNamed([Straddling()])
  {
    assert Ordinary(D) && Ordinary(A) && Ordinary(D_C) && Ordinary(OPAQUE);
    WellFormedPathsAreNamed([Straddling()]);
  }

  lemma StraddlingStraddles(tree: R.Tree)
    requires tree == map[[D] := R.Node(Directory, Owner(0, 0), None),
                         [D, A] := R.Node(File, Owner(0, 0), Some(0)),
                         [D_C] := R.Node(File, Owner(0, 1), Some(0))]
    ensures Straddles(tree, [], 0, [D], [D, A], [D_C])
  {
    assert [D_C][0] == D_C && [D, A][1..] == [A];
    assert Spell([D]) == D && Spell([D_C]) == D_C;
    assert Spell([D, A]) == D + [SLASH] + Spell([A]) == [100, 47, 97];
    assert Less(D, D_C) && Less(D_C, [100, 47, 97]);
  }

  lemma MarkerBlocksNothing(table: Table, e: nat)
    requires PathsNamed([table]) && e < |table|
    requires table[e].path != [] && |table[e].path| == 1
    requires WhiteoutOf(table[e].path).Some? && !WhiteoutOf(table[e].path).value.Invalid?
    requires R.ReplayTo([table], 0, e).blocked == R.Nothing
    ensures R.ReplayTo([table], 0, e + 1).blocked == R.Nothing
  {
    assert Holds([table], Owner(0, e));
  }

  lemma StraddlingParts(host: W.Host)
    ensures Parts(Straddling(), host)
  {
    StraddlingIsWellFormed();
    StraddlingIsReplayed();
    StraddlingStraddles(R.ReplayTo([Straddling()], 0, 2).tree);
    MarkerBlocksNothing(Straddling(), 2);
    PartsByItsLastGuard(Straddling(), host);
  }

  // ------------------------------------------------------------ stale writes

  const B: Name := [98]
  const C: Name := [99]

  function MarkerOf(name: Name): Name {
    PREFIX + name
  }

  /** `a/b` beside `d/a`, taken away with `a` by the layer's own marker, then
      made again as the directory of `a/b/c`: to the walk it is a path the layer
      wrote, to the tree a directory nobody named. */
  function Stale(): Table {
    [Item(File, [D, A]), Item(File, [A, B]), Item(File, [MarkerOf(A)]), Item(File, [A, B, C]),
     Item(File, [A, MarkerOf(B)])]
  }

  lemma StaleIsWellFormed()
    ensures AllWellFormed([Stale()]) && PathsNamed([Stale()])
  {
    assert Ordinary(A) && Ordinary(B) && Ordinary(C) && Ordinary(MarkerOf(A)) && Ordinary(MarkerOf(B));
    WellFormedPathsAreNamed([Stale()]);
  }

  lemma MarkersRead()
    ensures WhiteoutOf([MarkerOf(A)]) == Some(Named([A]))
    ensures WhiteoutOf([A, MarkerOf(B)]) == Some(Named([A, B]))
    ensures WhiteoutOf([A, B]).None? && WhiteoutOf([A, B, C]).None? && WhiteoutOf([D, A]).None?
  {
    assert MarkerOf(A)[|PREFIX|..] == A && MarkerOf(B)[|PREFIX|..] == B;
    assert MarkerOf(A) != OPAQUE && MarkerOf(B) != OPAQUE;
    assert |MarkerOf(A)| == |MarkerOf(B)| == 5 && |OPAQUE| == 12;
    assert Parent([MarkerOf(A)]) + [A] == [A] && Parent([A, MarkerOf(B)]) + [B] == [A, B];
  }

  lemma MarkerRemoves(table: Table, e: nat, target: Path)
    requires PathsNamed([table]) && e < |table| && table[e].path != []
    requires WhiteoutOf(table[e].path) == Some(Named(target))
    requires R.ReplayTo([table], 0, e).blocked == R.Nothing
    requires R.InTheWay(R.ReplayTo([table], 0, e).tree, [table], table[e].path) == R.Nothing
    ensures R.ReplayTo([table], 0, e + 1) ==
            R.State(R.ApplyNamed(R.ReplayTo([table], 0, e).tree, target, 0), R.Nothing)
  {
    assert Holds([table], Owner(0, e));
  }

  function StaleFirst(): R.Tree {
    map[[D] := R.Node(Directory, Owner(0, 0), None), [D, A] := R.Node(File, Owner(0, 0), Some(0))]
  }

  function StaleMid(): R.Tree {
    StaleFirst()[[A] := R.Node(Directory, Owner(0, 1), None)][[A, B] := R.Node(File, Owner(0, 1), Some(0))]
  }

  function StaleTree(): R.Tree {
    StaleFirst()[[A] := R.Node(Directory, Owner(0, 3), None)][[A, B] := R.Node(Directory, Owner(0, 3), None)]
                [[A, B, C] := R.Node(File, Owner(0, 3), Some(0))]
  }

  /** A file taking its path, under ancestors that are made for it. */
  function Taking(tree: R.Tree, path: Path, owner: Owner): R.Tree {
    R.RemoveWhole(R.EnsureParents(tree, path, owner), path)[path := R.Node(File, owner, Some(0))]
  }

  lemma StaleTakings()
    ensures Taking(map[], [D, A], Owner(0, 0)) == StaleFirst()
    ensures Taking(StaleFirst(), [A, B], Owner(0, 1)) == StaleMid()
  {
    assert Ancestors([D, A]) == {[D]} by { assert [D, A][..1] == [D]; }
    assert Ancestors([A, B]) == {[A]} by { assert [A, B][..1] == [A]; }
  }

  lemma StaleRemoval(tree: R.Tree)
    requires tree == StaleMid()
    ensures R.ApplyNamed(tree, [A], 0) == StaleFirst()
  {
    assert [A, B][..1] == [A] && [D, A][..1] == [D];
  }

  lemma StaleMadeAgain()
    ensures Taking(StaleFirst(), [A, B, C], Owner(0, 3)) == StaleTree()
  {
    assert Ancestors([A, B, C]) == {[A], [A, B]} by { assert [A, B, C][..1] == [A] && [A, B, C][..2] == [A, B]; }
  }

  lemma StaleStarts()
    requires PathsNamed([Stale()])
    ensures R.ReplayTo([Stale()], 0, 2) == R.State(StaleMid(), R.Nothing)
  {
    var table := Stale();
    MarkersRead();
    assert R.ReplayTo([table], 0, 0) == R.State(map[], R.Nothing);
    StaleTakings();
    Takes(table, 0);
    assert R.ReplayTo([table], 0, 1) == R.State(StaleFirst(), R.Nothing);
    Takes(table, 1);
  }

  lemma StaleIsTaken()
    requires PathsNamed([Stale()])
    ensures R.ReplayTo([Stale()], 0, 3) == R.State(StaleFirst(), R.Nothing)
  {
    MarkersRead();
    StaleStarts();
    MarkerRemoves(Stale(), 2, [A]);
    StaleRemoval(StaleMid());
  }

  lemma StaleIsReplayed()
    requires PathsNamed([Stale()])
    ensures R.ReplayTo([Stale()], 0, 4) == R.State(StaleTree(), R.Nothing)
  {
    MarkersRead();
    StaleIsTaken();
    StaleMadeAgain();
    Takes(Stale(), 3);
  }

  lemma DirectoryIsStale(tree: R.Tree, written: set<Path>, target: Path)
    requires target != [] && target in written && target in tree && tree[target].namedBy != Some(0)
    ensures !MarkerIsPlain(tree, written, 0, target)
  {
  }

  lemma NamedGuardMeans(tables: Tables, tree: R.Tree, s: W.State, host: W.Host, owner: Owner, entry: Entry)
    requires entry.path != [] && WhiteoutOf(entry.path).Some? && WhiteoutOf(entry.path).value.Named?
    requires Guard(tables, tree, s, host, owner, entry)
    ensures MarkerIsPlain(tree, s.written, owner.layer, WhiteoutOf(entry.path).value.target)
  {
  }

  lemma StillWritten(table: Table, at: nat, e: nat, target: Path)
    requires at < e <= |table| && target != [] && target != ROOT_ENTRY && WhiteoutOf(target).None?
    requires table[at] == Item(File, target)
    ensures target in Written(table, e)
  {
  }

  /** A marker naming what the layer wrote at `at`, where the tree has had
      something else since. */
  lemma MarkerGuardFails(table: Table, host: W.Host, at: nat, e: nat, target: Path, tree: R.Tree)
    requires PathsNamed([table]) && at < e < |table| && table[e].path != []
    requires target != [] && target != ROOT_ENTRY && WhiteoutOf(target).None? && table[at] == Item(File, target)
    requires WhiteoutOf(table[e].path) == Some(Named(target))
    requires R.ReplayTo([table], 0, e).tree == tree && target in tree && tree[target].namedBy == None
    ensures !GuardAt([table], host, 0, e)
  {
    StillWritten(table, at, e, target);
    DirectoryIsStale(tree, Written(table, e), target);
    if GuardAt([table], host, 0, e) {
      NamedGuardMeans([table], tree, Foreseen([table], 0, e), host, Owner(0, e), table[e]);
    }
  }

  lemma StaleEnds()
    requires PathsNamed([Stale()]) && R.ReplayTo([Stale()], 0, 4) == R.State(StaleTree(), R.Nothing)
    ensures R.ReplayTo([Stale()], 0, 5).blocked == R.Nothing
  {
    MarkersRead();
    assert [A, MarkerOf(B)][..1] == [A];
    MarkerRemoves(Stale(), 4, [A, B]);
  }

  lemma StaleTreeHolds()
    ensures [A, B] in StaleTree() && StaleTree()[[A, B]].namedBy == None
  {
  }

  lemma StaleMarkerFails(table: Table, host: W.Host, e: nat, tree: R.Tree)
    requires PathsNamed([table]) && table == Stale() && e == |table| - 1 && R.ReplayTo([table], 0, e).tree == tree
    requires [A, B] in tree && tree[[A, B]].namedBy == None
    requires WhiteoutOf([A, B]).None? && WhiteoutOf([A, MarkerOf(B)]) == Some(Named([A, B]))
    ensures !GuardAt([table], host, 0, e)
  {
    MarkerGuardFails(table, host, 1, e, [A, B], tree);
  }

  lemma StaleParts(host: W.Host)
    ensures Parts(Stale(), host)
  {
    StaleIsWellFormed();
    StaleIsReplayed();
    StaleEnds();
    MarkersRead();
    StaleTreeHolds();
    StaleMarkerFails(Stale(), host, 4, StaleTree());
    PartsByItsLastGuard(Stale(), host);
  }

  // ------------------------------------------------------------ links

  const L: Name := [108]
  const S: Name := [115]

  lemma MakesDirectory(table: Table, e: nat)
    requires PathsNamed([table]) && e < |table| && table[e].path != [] && WhiteoutOf(table[e].path).None?
    requires table[e].kind == Directory && R.ReplayTo([table], 0, e).blocked == R.Nothing
    requires R.InTheWay(R.ReplayTo([table], 0, e).tree, [table], table[e].path) == R.Nothing
    ensures var tree := R.EnsureParents(R.ReplayTo([table], 0, e).tree, table[e].path, Owner(0, e));
            R.KeepsTheLink(tree, [table], table[e].path).Some? ==>
              R.ReplayTo([table], 0, e + 1) ==
              R.State(DirectoryTree([table], tree, Owner(0, e), table[e].path), R.Nothing)
  {
    assert Holds([table], Owner(0, e));
  }

  /** A directory entry meeting a link that is not plain. */
  lemma LinkGuardFails(table: Table, host: W.Host, e: nat, tree: R.Tree, path: Path)
    requires PathsNamed([table]) && e < |table| && table[e] == Item(Directory, path)
    requires path != [] && path != ROOT_ENTRY && WhiteoutOf(path).None?
    requires R.ReplayTo([table], 0, e).tree == tree
    requires !LinkIsPlain([table], tree, Standing([table], tree), host, path)
    ensures !GuardAt([table], host, 0, e)
  {
  }

  function DirNode(e: nat): R.Node {
    R.Node(Directory, Owner(0, e), Some(0))
  }

  function FirstTree(): R.Tree {
    map[[D] := R.Node(Directory, Owner(0, 0), None), [D, A] := DirNode(0)]
  }

  lemma FirstMakes(table: Table)
    requires PathsNamed([table]) && table != [] && table[0] == Item(Directory, [D, A])
    ensures R.ReplayTo([table], 0, 1) == R.State(FirstTree(), R.Nothing)
  {
    assert R.ReplayTo([table], 0, 0) == R.State(map[], R.Nothing);
    assert WhiteoutOf([D, A]).None?;
    MakesDirectory(table, 0);
    assert Ancestors([D, A]) == {[D]} by { assert [D, A][..1] == [D]; }
  }

  /** A name at the top that the tree has nothing at or under. */
  predicate IsUnused(tree: R.Tree, name: Name) {
    forall p | p in tree :: !AtOrUnder([name], p)
  }

  /** A link taking such a name leaves everything else as it was. */
  lemma LinkTakes(table: Table, e: nat, tree: R.Tree, name: Name)
    requires PathsNamed([table]) && e < |table| && table[e].path == [name] && WhiteoutOf([name]).None?
    requires table[e].kind == Symlink || (table[e].kind == HardLink && table[e].target != [name])
    requires R.ReplayTo([table], 0, e) == R.State(tree, R.Nothing) && IsUnused(tree, name)
    requires R.LinksSomewhere(tree, [table], table[e]) == R.Nothing
    ensures R.ReplayTo([table], 0, e + 1)
            == R.State(tree[[name] := R.Node(table[e].kind, Owner(0, e), Some(0))], R.Nothing)
  {
  }

  /** `d/a`, `s -> d`, `l -> s/a` and then a directory `l`: the link leads to
      `d/a`, through `s`, and the plan looks for something called `s/a`. */
  function Chain(): Table {
    [Item(Directory, [D, A]), LinkTo([S], D), LinkTo([L], [115, 47, 97]), Item(Directory, [L])]
  }

  lemma ChainIsWellFormed()
    ensures AllWellFormed([Chain()]) && PathsNamed([Chain()])
  {
    assert Ordinary(D) && Ordinary(A) && Ordinary(S) && Ordinary(L);
    WellFormedPathsAreNamed([Chain()]);
  }

  function ChainTree(): R.Tree {
    FirstTree()[[S] := R.Node(Symlink, Owner(0, 1), Some(0))][[L] := R.Node(Symlink, Owner(0, 2), Some(0))]
  }

  lemma ChainIsReplayed()
    requires PathsNamed([Chain()])
    ensures R.ReplayTo([Chain()], 0, 3) == R.State(ChainTree(), R.Nothing)
  {
    FirstMakes(Chain());
    LinkTakes(Chain(), 1, FirstTree(), S);
    LinkTakes(Chain(), 2, FirstTree()[[S] := R.Node(Symlink, Owner(0, 1), Some(0))], L);
  }

  lemma TargetsRead()
    ensures Components([115, 47, 97]) == [S, A] && Components(D) == [D] && Components([47, 100]) == [D]
  {
    ComponentsOfSpell([D]) by { assert Ordinary(D); }
    ComponentsOfSpell([A]) by { assert Ordinary(A); }
    ComponentsOfSpell([S]) by { assert Ordinary(S); }
    ComponentsOfJoin(S, A);
    ComponentsOfJoin([], D);
    assert S + [SLASH] + A == [115, 47, 97] && [] + [SLASH] + D == [47, 100];
  }

  lemma ChainOnDisk()
    requires PathsNamed([Chain()])
    ensures var disk := Standing([Chain()], ChainTree());
            && W.IsLink(disk, [L]) && disk[[L]].inode.target == [115, 47, 97]
            && W.IsLink(disk, [S]) && disk[[S]].inode.target == D
            && W.IsDirectory(disk, [D]) && W.IsDirectory(disk, [D, A])
  {
    assert [D] != ROOT_ENTRY && [S] != ROOT_ENTRY && [L] != ROOT_ENTRY;
    assert At([Chain()], Owner(0, 1)) == LinkTo([S], D) && At([Chain()], Owner(0, 2)) == LinkTo([L], [115, 47, 97]);
  }

  lemma FollowsADirectory(disk: W.Disk, host: W.Host, at: Path, name: Name, rest: Path, links: nat)
    requires name != PARENT_DIR && W.IsDirectory(disk, at + [name])
    ensures W.Follows(disk, host, at, [name] + rest, links) == W.Follows(disk, host, at + [name], rest, links)
  {
    assert ([name] + rest)[1..] == rest;
  }

  lemma FollowsALink(disk: W.Disk, host: W.Host, at: Path, name: Name, rest: Path, links: nat)
    requires name != PARENT_DIR && W.IsLink(disk, at + [name]) && links > 0
    requires !R.IsAbsolute(disk[at + [name]].inode.target)
    ensures W.Follows(disk, host, at, [name] + rest, links) ==
            W.Follows(disk, host, at, Components(disk[at + [name]].inode.target) + rest, links - 1)
  {
    assert ([name] + rest)[1..] == rest;
  }

  lemma ChainFollowed(host: W.Host)
    requires PathsNamed([Chain()])
    ensures var disk := Standing([Chain()], ChainTree());
            W.IsLink(disk, [L]) && W.LeadsToADirectory(disk, host, [L])
  {
    var disk := Standing([Chain()], ChainTree());
    ChainOnDisk();
    TargetsRead();
    assert [] + [L] == [L] && [] + [S] == [S] && [] + [D] == [D] && [D] + [A] == [D, A];
    FollowsALink(disk, host, [], L, [], 40);
    assert [L] + [] == [L] && [S, A] + [] == [S] + [A];
    FollowsALink(disk, host, [], S, [A], 39);
    FollowsADirectory(disk, host, [], D, [A], 38);
    assert [A] == [A] + [];
    FollowsADirectory(disk, host, [D], A, [], 38);
  }

  lemma ChainIsNotKept()
    ensures R.KeepsTheLink(ChainTree(), [Chain()], [L]) == Some(false)
  {
    TargetsRead();
    assert Parent([L]) + [S, A] == [S, A];
    assert R.PointsAt([L], [115, 47, 97]) == Some([S, A]);
    forall p | p in ChainTree() ensures !Under([S, A], p) { }
  }

  /** A directory at the top of the rootfs bars nothing the plan can follow. */
  lemma TopDirectoryBlocksNothing(table: Table, e: nat, name: Name, tree: R.Tree)
    requires PathsNamed([table]) && e < |table| && table[e] == Item(Directory, [name])
    requires WhiteoutOf([name]).None? && R.ReplayTo([table], 0, e) == R.State(tree, R.Nothing)
    requires R.KeepsTheLink(tree, [table], [name]).Some?
    ensures R.ReplayTo([table], 0, e + 1).blocked == R.Nothing
  {
    assert Ancestors([name]) == {};
    assert R.EnsureParents(tree, [name], Owner(0, e)) == tree;
    MakesDirectory(table, e);
  }

  lemma ChainEnds()
    requires PathsNamed([Chain()])
    ensures R.ReplayTo([Chain()], 0, 4).blocked == R.Nothing
  {
    ChainIsReplayed();
    ChainIsNotKept();
    TopDirectoryBlocksNothing(Chain(), 3, L, ChainTree());
  }

  lemma ChainParts(host: W.Host)
    ensures Parts(Chain(), host)
  {
    ChainIsWellFormed();
    ChainIsReplayed();
    ChainIsNotKept();
    ChainEnds();
    ChainFollowed(host);
    LinkGuardFails(Chain(), host, 3, ChainTree(), [L]);
    PartsByItsLastGuard(Chain(), host);
  }

  /** A directory `d/a`, `s -> d`, `l` made a hard link to `s`, and then a
      directory `l`: on the disk `l` is a symlink leading to a directory, in the
      tree a hard link and so nothing to keep. */
  function LinkedLink(): Table {
    [Item(Directory, [D, A]), LinkTo([S], D), Entry(HardLink, [L], S, [S], 0, 0), Item(Directory, [L])]
  }

  function LinkedLinkMid(): R.Tree {
    FirstTree()[[S] := R.Node(Symlink, Owner(0, 1), Some(0))]
  }

  function LinkedLinkTree(): R.Tree {
    LinkedLinkMid()[[L] := R.Node(HardLink, Owner(0, 2), Some(0))]
  }

  lemma LinkedLinkIsWellFormed()
    ensures AllWellFormed([LinkedLink()]) && PathsNamed([LinkedLink()])
  {
    assert Ordinary(D) && Ordinary(A) && Ordinary(S) && Ordinary(L);
    WellFormedPathsAreNamed([LinkedLink()]);
  }

  lemma LinkedLinkStarts()
    requires PathsNamed([LinkedLink()])
    ensures R.ReplayTo([LinkedLink()], 0, 2) == R.State(LinkedLinkMid(), R.Nothing)
  {
    FirstMakes(LinkedLink());
    LinkTakes(LinkedLink(), 1, FirstTree(), S);
  }

  lemma LinkedLinkGoesOn()
    requires PathsNamed([LinkedLink()])
    ensures R.ReplayTo([LinkedLink()], 0, 3) == R.State(LinkedLinkTree(), R.Nothing)
  {
    LinkedLinkStarts();
    LinkTakes(LinkedLink(), 2, LinkedLinkMid(), L);
  }

  lemma LinkedLinkEnds()
    requires PathsNamed([LinkedLink()])
    ensures R.ReplayTo([LinkedLink()], 0, 4).blocked == R.Nothing
  {
    LinkedLinkGoesOn();
    TopDirectoryBlocksNothing(LinkedLink(), 3, L, LinkedLinkTree());
  }

  lemma LinkedLinkOnDisk()
    requires PathsNamed([LinkedLink()])
    ensures var disk := Standing([LinkedLink()], LinkedLinkTree());
            && W.IsLink(disk, [L]) && disk[[L]].inode.target == D && W.IsDirectory(disk, [D])
  {
    LinkedLinkStarts();
    assert [D] != ROOT_ENTRY && [L] != ROOT_ENTRY;
    var tables, o := [LinkedLink()], Owner(0, 2);
    assert At(tables, o) == Entry(HardLink, [L], S, [S], 0, 0);
    assert LinksNow(tables, o) && LinkedTo(tables, o) == LinkedLinkMid()[[S]];
    assert At(tables, Owner(0, 1)) == LinkTo([S], D);
  }

  lemma LinkedLinkFollowed(disk: W.Disk, host: W.Host)
    requires W.IsLink(disk, [L]) && disk[[L]].inode.target == D && W.IsDirectory(disk, [D])
    ensures W.LeadsToADirectory(disk, host, [L])
  {
    TargetsRead();
    assert [] + [L] == [L] && [] + [D] == [D] && [L] + [] == [L] && [D] + [] == [D];
    FollowsALink(disk, host, [], L, [], 40);
    FollowsADirectory(disk, host, [], D, [], 39);
  }

  lemma LinkedLinkParts(host: W.Host)
    ensures Parts(LinkedLink(), host)
  {
    LinkedLinkIsWellFormed();
    LinkedLinkGoesOn();
    LinkedLinkEnds();
    LinkedLinkOnDisk();
    LinkedLinkFollowed(Standing([LinkedLink()], LinkedLinkTree()), host);
    LinkGuardFails(LinkedLink(), host, 3, LinkedLinkTree(), [L]);
    PartsByItsLastGuard(LinkedLink(), host);
  }

  /** A directory `d/a`, `l -> /d`, and then a directory `l`: the plan looks for
      `d` in the rootfs, the walk on the host. */
  function Absolute(): Table {
    [Item(Directory, [D, A]), LinkTo([L], [47, 100]), Item(Directory, [L])]
  }

  function AbsoluteTree(): R.Tree {
    FirstTree()[[L] := R.Node(Symlink, Owner(0, 1), Some(0))]
  }

  lemma AbsoluteIsWellFormed()
    ensures AllWellFormed([Absolute()]) && PathsNamed([Absolute()])
  {
    assert Ordinary(D) && Ordinary(A) && Ordinary(L);
    WellFormedPathsAreNamed([Absolute()]);
  }

  lemma AbsoluteStarts()
    requires PathsNamed([Absolute()])
    ensures R.ReplayTo([Absolute()], 0, 2) == R.State(AbsoluteTree(), R.Nothing)
  {
    FirstMakes(Absolute());
    LinkTakes(Absolute(), 1, FirstTree(), L);
  }

  lemma AbsoluteIsKept()
    ensures R.KeepsTheLink(AbsoluteTree(), [Absolute()], [L]) == Some(true)
  {
    TargetsRead();
    assert R.PointsAt([L], [47, 100]) == Some([D]) by { assert [] + [D] == [D]; }
  }

  lemma AbsoluteIsReplayed()
    requires PathsNamed([Absolute()])
    ensures R.ReplayTo([Absolute()], 0, 2) == R.State(AbsoluteTree(), R.Nothing)
    ensures R.ReplayTo([Absolute()], 0, 3).blocked == R.Nothing
  {
    AbsoluteStarts();
    AbsoluteIsKept();
    TopDirectoryBlocksNothing(Absolute(), 2, L, AbsoluteTree());
  }

  lemma AbsoluteFollowed(host: W.Host)
    requires PathsNamed([Absolute()])
    requires var disk := Standing([Absolute()], AbsoluteTree()); !host(disk, true, [D])
    ensures var disk := Standing([Absolute()], AbsoluteTree());
            W.IsLink(disk, [L]) && !W.LeadsToADirectory(disk, host, [L])
  {
    TargetsRead();
    assert [L] != ROOT_ENTRY && At([Absolute()], Owner(0, 1)) == LinkTo([L], [47, 100]);
    assert [] + [L] == [L] && [D] + [L][1..] == [D];
  }

  lemma AbsoluteParts(host: W.Host)
    requires forall disk: W.Disk :: !host(disk, true, [D])
    ensures Parts(Absolute(), host)
  {
    AbsoluteIsWellFormed();
    AbsoluteIsReplayed();
    AbsoluteIsKept();
    AbsoluteFollowed(host);
    LinkGuardFails(Absolute(), host, 2, AbsoluteTree(), [L]);
    PartsByItsLastGuard(Absolute(), host);
  }
}
