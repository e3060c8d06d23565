/** Making an image ready to be served: its tree, and which of its files each
    fetch can place. */
module Mounting {
  import opened Paths
  import opened Owners
  import opened Placement
  import N = Planner
  import opened Inodes
  import opened Serve
  import opened Sorting
  import B = Build
  import C = Changes
  import F = Fetch
  import L = Layers
  import P = Spans
  import R = Replay
  import W = Walk

  /** Where a file's contents are in its layer's stream. */
  function BodyOf(tables: L.Tables, o: L.Owner): P.Body
    requires L.Holds(tables, o)
  {
    P.Body(L.At(tables, o).offset, L.At(tables, o).size)
  }

  predicate IsKnown(byPath: map<Path, int>, tables: L.Tables, o: L.Owner) {
    L.Holds(tables, o) && L.At(tables, o).path in byPath && byPath[L.At(tables, o).path] >= 0
  }

  function PlacedAs(byPath: map<Path, int>, tables: L.Tables, o: L.Owner): F.Placed
    requires IsKnown(byPath, tables, o)
  {
    F.Placed(BodyOf(tables, o), byPath[L.At(tables, o).path])
  }

  predicate ComesFirst(a: F.Placed, b: F.Placed) {
    a.body.offset < b.body.offset || (a.body.offset == b.body.offset && a.ino <= b.ino)
  }

  /** The files of one layer, and nothing else, in stream order. */
  ghost predicate IsListOf(byPath: map<Path, int>, tables: L.Tables, files: seq<L.Owner>, l: nat, list: seq<F.Placed>)
    requires forall o | o in files :: IsKnown(byPath, tables, o)
  {
    && F.ByOffset(list)
    && forall x :: x in list <==> exists o | o in files && o.layer == l :: x == PlacedAs(byPath, tables, o)
  }

  /** A layer's files as they are met, put in stream order. */
  method ListLayer(byPath: map<Path, int>, tables: L.Tables, files: seq<L.Owner>, l: nat)
    returns (list: seq<F.Placed>)
    requires forall o | o in files :: IsKnown(byPath, tables, o)
    ensures IsListOf(byPath, tables, files, l, list)
  {
    var met: seq<F.Placed> := [];
    for k := 0 to |files|
      invariant forall x :: x in met <==>
                  exists i | 0 <= i < k && files[i].layer == l :: x == PlacedAs(byPath, tables, files[i])
    {
      if files[k].layer == l {
        met := met + [PlacedAs(byPath, tables, files[k])];
      }
    }
    SortSorts(met, ComesFirst);
    list := Sort(met, ComesFirst);
    forall x ensures x in list <==> x in met {
      assert x in list <==> x in multiset(list);
      assert x in met <==> x in multiset(met);
    }
    forall i, j | 0 <= i <= j < |list| ensures list[i].body.offset <= list[j].body.offset {
      assert i < j ==> ComesFirst(list[i], list[j]);
    }
  }

  /** The files of every layer. */
  method ListBodies(byPath: map<Path, int>, tables: L.Tables, files: seq<L.Owner>) returns (lists: seq<seq<F.Placed>>)
    requires forall o | o in files :: IsKnown(byPath, tables, o)
    ensures |lists| == |tables| && forall l | 0 <= l < |tables| :: IsListOf(byPath, tables, files, l, lists[l])
  {
    lists := [];
    for l := 0 to |tables|
      invariant |lists| == l && forall i | 0 <= i < l :: IsListOf(byPath, tables, files, i, lists[i])
    {
      var list := ListLayer(byPath, tables, files, l);
      lists := lists + [list];
    }
  }

  /** The file has yet to be fetched from a layer. */
  predicate IsOwed(nodes: Table<Name>, tables: L.Tables, ino: nat) {
    && 1 <= ino <= |nodes| && nodes[ino - 1].kind.File? && nodes[ino - 1].kind.content.InLayer?
    && L.Holds(tables, nodes[ino - 1].kind.content.owner)
  }

  /** What a tree just built owes: every file's contents are still in its layer. */
  function OwedBy<T>(nodes: Table<Name>, tables: L.Tables): map<nat, F.Content<T>> {
    map ino: nat | ino <= |nodes| && IsOwed(nodes, tables, ino) ::
      F.Owed(BodyOf(tables, nodes[ino - 1].kind.content.owner))
  }

  // ------------------------------------------------------------ what the lists say

  /** A file's inode is its own entry's, or through hard links another's. */
  lemma {:induction false} FileInodesAreOwned(tables: L.Tables, tree: R.Tree, path: Path, o: L.Owner)
    requires Sound(tables, tree) && path in tree && InodeOf(tables, tree, path) == W.FileInode(o)
    ensures exists q :: R.Named(tree, q, L.File) && tree[q].owner == o
    decreases tree[path].owner.layer, tree[path].owner.entry
  {
    if tree[path].kind == L.HardLink {
      FileInodesAreOwned(tables, tree, L.At(tables, tree[path].owner).target, o);
    } else {
      assert R.Named(tree, path, L.File);
    }
  }

  lemma ListedIsPlanned(tables: L.Tables, tree: R.Tree, files: seq<L.Owner>, o: L.Owner)
    requires Sound(tables, tree) && Lists(tables, tree, L.File, files) && o in files
    ensures L.Holds(tables, o) && L.At(tables, o).path in Planned(tables, tree)
    ensures Planned(tables, tree)[L.At(tables, o).path] == W.FileInode(o)
  {
    var path := L.At(tables, o).path;
    assert Placed(tables, tree, L.File, o);
    assert Owned(tables, path, tree[path]);
    L.RootEntryIsNotCanonical();
    assert IsPlanned(tree, path);
  }

  /** A file of the rootfs is known by a node that stands for it. */
  lemma FileIsKnown(nodes: Table<Name>, byPath: map<Path, int>, disk: Rootfs, tables: L.Tables, o: L.Owner)
    requires IsServedAs(nodes, disk) && KnowsPaths(nodes, byPath, disk) && L.Holds(tables, o)
    requires L.At(tables, o).path in disk && disk[L.At(tables, o).path] == W.FileInode(o)
    ensures IsKnown(byPath, tables, o)
    ensures var ino := byPath[L.At(tables, o).path];
            nodes[ino - 1].kind == File(InLayer(o)) && IsOwed(nodes, tables, ino)
  {
    assert LeadsTo(nodes, disk, L.At(tables, o).path);
  }

  /** Every file of a layer that the tree owes is in the layer's list. */
  lemma OwedIsListed(nodes: Table<Name>, byPath: map<Path, int>, tables: L.Tables, tree: R.Tree, files: seq<L.Owner>,
                     ino: nat)
    requires Sound(tables, tree) && Lists(tables, tree, L.File, files) && C.IsATree(nodes)
    requires IsServedAs(nodes, Planned(tables, tree)) && KnowsPaths(nodes, byPath, Planned(tables, tree))
    requires IsOwed(nodes, tables, ino)
    ensures var o := nodes[ino - 1].kind.content.owner;
            o in files && IsKnown(byPath, tables, o) && byPath[L.At(tables, o).path] == ino
  {
    var disk, o := Planned(tables, tree), nodes[ino - 1].kind.content.owner;
    var p := FilesHavePaths(nodes, disk, ino);
    assert disk[p] == W.FileInode(o) && p in tree;
    FileInodesAreOwned(tables, tree, p, o);
    var q :| R.Named(tree, q, L.File) && tree[q].owner == o;
    assert Owned(tables, q, tree[q]);
    ListedIsPlanned(tables, tree, files, o);
    FileIsKnown(nodes, byPath, disk, tables, o);
    assert SharesAsPlaced(nodes, disk, p, q);
  }

  /** What a layer's fetches need of its list: in stream order, each file owed
      where the list says, and none of the layer's left out. */
  ghost predicate Suffices(nodes: Table<Name>, tables: L.Tables, l: nat, list: seq<F.Placed>) {
    && F.ByOffset(list) && F.OwedAsListed(list, OwedBy<Byte>(nodes, tables))
    && forall ino: nat | IsOwed(nodes, tables, ino) && nodes[ino - 1].kind.content.owner.layer == l ::
         exists i | 0 <= i < |list| :: list[i].ino == ino
  }

  lemma OwedAsTheListSays(nodes: Table<Name>, byPath: map<Path, int>, tables: L.Tables, tree: R.Tree,
                          files: seq<L.Owner>, l: nat, list: seq<F.Placed>)
    requires Sound(tables, tree) && Lists(tables, tree, L.File, files)
    requires IsServedAs(nodes, Planned(tables, tree)) && KnowsPaths(nodes, byPath, Planned(tables, tree))
    requires forall o | o in files :: IsKnown(byPath, tables, o)
    requires IsListOf(byPath, tables, files, l, list)
    ensures F.OwedAsListed(list, OwedBy<Byte>(nodes, tables))
  {
    forall i | 0 <= i < |list|
      ensures list[i].ino in OwedBy<Byte>(nodes, tables) ==>
                OwedBy<Byte>(nodes, tables)[list[i].ino] == F.Owed(list[i].body)
    {
      assert list[i] in list;
      var o :| o in files && o.layer == l && list[i] == PlacedAs(byPath, tables, o);
      ListedIsPlanned(tables, tree, files, o);
      FileIsKnown(nodes, byPath, Planned(tables, tree), tables, o);
    }
  }

  lemma ListsSuffice(nodes: Table<Name>, byPath: map<Path, int>, tables: L.Tables, tree: R.Tree, files: seq<L.Owner>,
                     l: nat, list: seq<F.Placed>)
    requires Sound(tables, tree) && Lists(tables, tree, L.File, files) && C.IsATree(nodes)
    requires IsServedAs(nodes, Planned(tables, tree)) && KnowsPaths(nodes, byPath, Planned(tables, tree))
    requires forall o | o in files :: IsKnown(byPath, tables, o)
    requires IsListOf(byPath, tables, files, l, list)
    ensures Suffices(nodes, tables, l, list)
  {
    OwedAsTheListSays(nodes, byPath, tables, tree, files, l, list);
    forall ino: nat | IsOwed(nodes, tables, ino) && nodes[ino - 1].kind.content.owner.layer == l
      ensures exists i | 0 <= i < |list| :: list[i].ino == ino
    {
      OwedIsListed(nodes, byPath, tables, tree, files, ino);
      var o := nodes[ino - 1].kind.content.owner;
      assert PlacedAs(byPath, tables, o) in list;
    }
  }

  /** Whatever path leads to a file leads to an inode that owes the very stretch of
      its layer's stream that the file's entry says, and its layer's list fetches
      just that for it. */
  lemma EveryFileIsOwedItsBody(nodes: Table<Name>, tables: L.Tables, disk: Rootfs, list: seq<F.Placed>, p: Path,
                               o: L.Owner)
    requires IsServedAs(nodes, disk) && p in disk && disk[p] == W.FileInode(o) && L.Holds(tables, o)
    requires Suffices(nodes, tables, o.layer, list)
    ensures Resolve(nodes, ROOT, p).Some?
    ensures var ino, entry := Resolve(nodes, ROOT, p).value, L.At(tables, o);
            && 1 <= ino <= |nodes| && nodes[ino - 1].kind == File(InLayer(o))
            && (exists i | 0 <= i < |list| :: list[i] == F.Placed(P.Body(entry.offset, entry.size), ino))
            && forall i | 0 <= i < |list| && list[i].ino == ino :: list[i].body == P.Body(entry.offset, entry.size)
  {
    assert LeadsTo(nodes, disk, p);
    var ino := Resolve(nodes, ROOT, p).value;
    assert IsOwed(nodes, tables, ino);
    var i :| 0 <= i < |list| && list[i].ino == ino;
  }

  // ------------------------------------------------------------ from layers to a served tree

  /** An image resolved and served straight from its plan. It is just when it can
      be placed from one, and then as the rootfs that would be placed; each
      layer's list is one its fetches can go by. */
  method Mount(raw: seq<seq<L.RawEntry>>)
    returns (tables: Option<L.Tables>, nodes: Option<Table<Name>>, lists: seq<seq<F.Placed>>)
    ensures tables.Some? <==> forall l, e | 0 <= l < |raw| && 0 <= e < |raw[l]| :: L.IsAccepted(raw[l][e])
    ensures tables.Some? ==> N.IsCanonicalised(raw, tables.value)
    ensures nodes.Some? <==>
              && tables.Some? && L.PathsNamed(tables.value)
              && R.Replayed(tables.value).blocked == R.Nothing
              && Placeable(tables.value, R.Replayed(tables.value).tree)
    ensures nodes.Some? ==>
              && C.IsATree(nodes.value)
              && IsServedAs(nodes.value, Planned(tables.value, R.Replayed(tables.value).tree))
              && |lists| == |tables.value|
              && forall l | 0 <= l < |lists| :: Suffices(nodes.value, tables.value, l, lists[l])
  {
    var plan;
    tables, plan := N.Resolve(raw);
    if plan.None? { return tables, None, []; }
    ghost var tree := R.Replayed(tables.value).tree;
    ReplayedIsSound(tables.value);
    var builder := new B.Builder();
    var work := plan.value.work;
    var ok := builder.Build(plan.value.directories, work.files, work.symlinks, work.hardLinks, tables.value, tree);
    var table, byPath := builder.served.nodes, builder.byPath;
    forall o | o in work.files ensures IsKnown(byPath, tables.value, o) {
      ListedIsPlanned(tables.value, tree, work.files, o);
      FileIsKnown(table, byPath, Planned(tables.value, tree), tables.value, o);
    }
    lists := ListBodies(byPath, tables.value, work.files);
    forall l | 0 <= l < |lists| ensures Suffices(table, tables.value, l, lists[l]) {
      ListsSuffice(table, byPath, tables.value, tree, work.files, l, lists[l]);
    }
    nodes := Some(table);
  }
}
