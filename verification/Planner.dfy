/** What a resolved tree asks to be placed, and placing it. */
module Planner {
  import opened Paths
  import opened Layers
  import opened Owners
  import opened Placement
  import opened Resolver
  import opened Sorting
  import R = Replay

  // ------------------------------------------------------------ directories

  /** A directory the first keys of the tree ask for. */
  ghost predicate Asks(tree: R.Tree, keys: seq<Path>, p: Path) {
    && !BehindALink(tree, p)
    && ((p in keys && R.Named(tree, p, Directory)) || (p !in tree && p != [] && exists q | q in keys :: Under(p, q)))
  }

  /** An ancestor of a path that nothing in the tree names. */
  predicate IsWantedAbove(tree: R.Tree, path: Path, p: Path) {
    p != [] && Under(p, path) && p !in tree && R.BlockedBy(tree, p).None?
  }

  method AddAncestors(tree: R.Tree, path: Path, wanted: set<Path>) returns (more: set<Path>)
    requires path != []
    ensures forall p :: p in more <==> p in wanted || IsWantedAbove(tree, path, p)
  {
    more := wanted;
    for k := 1 to |path|
      invariant forall p :: p in more <==> p in wanted || (|p| < k && IsWantedAbove(tree, path, p))
    {
      var ancestor := path[..k];
      if !(ancestor in tree || ancestor in more || R.BlockedBy(tree, ancestor).Some?) {
        more := more + {ancestor};
      }
      assert forall p | |p| == k && Under(p, path) :: p == ancestor;
    }
  }

  /** The directories the tree needs, parents before children. */
  method Directories(tree: R.Tree) returns (dirs: seq<Path>)
    requires forall p | p in tree :: Canonical(p) || p == ROOT_ENTRY
    ensures ListsDirectories(tree, dirs)
  {
    var keys := Keys(tree);
    var wanted: set<Path> := {};
    for i := 0 to |keys|
      invariant forall p :: p in wanted <==> Asks(tree, keys[..i], p)
    {
      OneKeyMore(tree, keys, i);
      assert keys[i] in tree;
      if tree[keys[i]].kind == Directory && R.BlockedBy(tree, keys[i]).None? { wanted := wanted + {keys[i]}; }
      wanted := AddAncestors(tree, keys[i], wanted);
    }
    assert keys[..|keys|] == keys;
    dirs := Sorted(wanted);
  }

  lemma OneKeyMore(tree: R.Tree, keys: seq<Path>, i: nat)
    requires i < |keys|
    ensures forall p :: Asks(tree, keys[..i + 1], p) <==>
              || Asks(tree, keys[..i], p)
              || (p == keys[i] && R.Named(tree, p, Directory) && R.BlockedBy(tree, p).None?)
              || IsWantedAbove(tree, keys[i], p)
  {
  }

  // ------------------------------------------------------------ work

  /** What is placed: each layer's files as its stream has them, symlinks as the
      map has them, hard links as they came. */
  datatype Work = Work(files: seq<Owner>, symlinks: seq<Owner>, hardLinks: seq<Owner>)

  function OwnersOf(tree: R.Tree, keys: seq<Path>, kind: Kind): seq<Owner> {
    if keys == [] then []
    else
      var last := keys[|keys| - 1];
      OwnersOf(tree, keys[..|keys| - 1], kind) + if R.Named(tree, last, kind) then [tree[last].owner] else []
  }

  /** Nothing about the path calls for a walk of the layers. */
  predicate CanPlace(tables: Tables, tree: R.Tree, p: Path)
    requires p in tree
  {
    && R.BlockedBy(tree, p).None? && tree[p].kind != Sparse
    && (tree[p].kind == HardLink ==>
          && Holds(tables, tree[p].owner)
          && var target := At(tables, tree[p].owner).target;
             target in tree && R.BlockedBy(tree, target).None? && !tree[p].owner.Precedes(tree[target].owner))
  }

  lemma {:induction false} OwnersAreListed(tables: Tables, tree: R.Tree, keys: seq<Path>, kind: Kind)
    requires OwnersMatch(tables, tree) && kind != Directory && (forall p | p in keys :: p in tree)
    requires forall i, j | 0 <= i < j < |keys| :: keys[i] != keys[j]
    ensures forall p | p in keys && tree[p].kind == kind :: tree[p].owner in OwnersOf(tree, keys, kind)
    ensures forall o | o in OwnersOf(tree, keys, kind) ::
              Holds(tables, o) && Placed(tables, tree, kind, o) && At(tables, o).path in keys
    ensures IsOnceEach(OwnersOf(tree, keys, kind))
  {
    if keys != [] {
      var less, last := keys[..|keys| - 1], keys[|keys| - 1];
      OwnersAreListed(tables, tree, less, kind);
      assert keys == less + [last] && last in keys;
      assert Owned(tables, last, tree[last]);
      assert last !in less;
    }
  }

  lemma KeysAreDistinct(keys: seq<Path>)
    requires Ascending(keys)
    ensures forall i, j | 0 <= i < j < |keys| :: keys[i] != keys[j]
  {
    forall i, j | 0 <= i < j < |keys| ensures keys[i] != keys[j] {
      assert Before(keys[i], keys[j]);
      LessIsTotal(Spell(keys[i]), Spell(keys[i]));
    }
  }

  lemma OwnersAreTheList(tables: Tables, tree: R.Tree, keys: seq<Path>, kind: Kind)
    requires OwnersMatch(tables, tree) && kind != Directory && InOrder(tree, keys)
    ensures Lists(tables, tree, kind, OwnersOf(tree, keys, kind))
  {
    KeysAreDistinct(keys);
    OwnersAreListed(tables, tree, keys, kind);
    assert forall p | R.Named(tree, p, kind) :: p in keys;
  }

  /** In stream order within a layer. */
  predicate ComesFirst(tables: Tables, a: Owner, b: Owner) {
    a.layer < b.layer || (a.layer == b.layer && OffsetOf(tables, a) <= OffsetOf(tables, b))
  }

  function OffsetOf(tables: Tables, o: Owner): nat {
    if Holds(tables, o) then At(tables, o).offset else 0
  }

  predicate NamedFirst(a: Owner, b: Owner) {
    a == b || a.Precedes(b)
  }

  ghost predicate InStreamOrder(tables: Tables, owners: seq<Owner>) {
    forall i, j | 0 <= i < j < |owners| :: ComesFirst(tables, owners[i], owners[j])
  }

  lemma SortedIsListed(tables: Tables, tree: R.Tree, kind: Kind, owners: seq<Owner>, le: (Owner, Owner) -> bool)
    requires IsOrder(le) && Lists(tables, tree, kind, owners)
    ensures Lists(tables, tree, kind, Sort(owners, le)) && IsSorted(Sort(owners, le), le)
  {
    SortSorts(owners, le);
    SortKeepsOnce(owners, le);
    var sorted := Sort(owners, le);
    forall i | 0 <= i < |sorted| ensures Holds(tables, sorted[i]) && Placed(tables, tree, kind, sorted[i]) {
      assert sorted[i] in owners;
      var k :| 0 <= k < |owners| && owners[k] == sorted[i];
    }
  }

  lemma PlaceableEverywhere(tables: Tables, tree: R.Tree, keys: seq<Path>)
    requires InOrder(tree, keys)
    ensures Placeable(tables, tree) <==>
            forall i | 0 <= i < |keys| :: keys[i] in tree && CanPlace(tables, tree, keys[i])
  {
    if forall i | 0 <= i < |keys| :: keys[i] in tree && CanPlace(tables, tree, keys[i]) {
      forall p | p in tree ensures CanPlace(tables, tree, p) {
        assert p in keys;
      }
    }
    if Placeable(tables, tree) {
      forall i | 0 <= i < |keys| ensures keys[i] in tree && CanPlace(tables, tree, keys[i]) {
        assert keys[i] in keys;
      }
    }
  }

  lemma SortedWork(tables: Tables, tree: R.Tree, keys: seq<Path>)
    requires OwnersMatch(tables, tree) && InOrder(tree, keys)
    ensures var files := Sort(OwnersOf(tree, keys, File), (a, b) => ComesFirst(tables, a, b));
            Lists(tables, tree, File, files) && InStreamOrder(tables, files)
    ensures Lists(tables, tree, Symlink, OwnersOf(tree, keys, Symlink))
    ensures var hardLinks := Sort(OwnersOf(tree, keys, HardLink), NamedFirst);
            Lists(tables, tree, HardLink, hardLinks) && InLinkOrder(hardLinks)
  {
    OwnersAreTheList(tables, tree, keys, File);
    OwnersAreTheList(tables, tree, keys, Symlink);
    OwnersAreTheList(tables, tree, keys, HardLink);
    SortedIsListed(tables, tree, File, OwnersOf(tree, keys, File), (a, b) => ComesFirst(tables, a, b));
    SortedIsListed(tables, tree, HardLink, OwnersOf(tree, keys, HardLink), NamedFirst);
  }

  /** The owners of each kind in the map's order, unless some path cannot be
      placed. */
  method Grouped(tables: Tables, tree: R.Tree, keys: seq<Path>) returns (work: Option<Work>)
    requires forall p | p in keys :: p in tree
    ensures work.Some? <==> forall i | 0 <= i < |keys| :: keys[i] in tree && CanPlace(tables, tree, keys[i])
    ensures work.Some? ==>
              work.value == Work(OwnersOf(tree, keys, File), OwnersOf(tree, keys, Symlink),
                                 OwnersOf(tree, keys, HardLink))
  {
    var files: seq<Owner>, symlinks: seq<Owner>, hardLinks: seq<Owner> := [], [], [];
    for i := 0 to |keys|
      invariant forall j | 0 <= j < i :: keys[j] in tree && CanPlace(tables, tree, keys[j])
      invariant files == OwnersOf(tree, keys[..i], File) && symlinks == OwnersOf(tree, keys[..i], Symlink)
      invariant hardLinks == OwnersOf(tree, keys[..i], HardLink)
    {
      var path := keys[i];
      assert path in tree;
      if !CanPlace(tables, tree, path) { return None; }
      assert keys[..i + 1][..i] == keys[..i];
      var kind, owner := tree[path].kind, tree[path].owner;
      if kind == File { files := files + [owner]; }
      if kind == Symlink { symlinks := symlinks + [owner]; }
      if kind == HardLink { hardLinks := hardLinks + [owner]; }
    }
    assert keys[..|keys|] == keys;
    return Some(Work(files, symlinks, hardLinks));
  }

  /** Groups what survives for a caller that places it directly, or tells that
      the image holds something only a walk of its layers can deal with. */
  method WorkOf(tables: Tables, tree: R.Tree) returns (work: Option<Work>)
    requires OwnersMatch(tables, tree)
    ensures work.Some? <==> Placeable(tables, tree)
    ensures work.Some? ==> Lists(tables, tree, File, work.value.files) && InStreamOrder(tables, work.value.files)
    ensures work.Some? ==> Lists(tables, tree, Symlink, work.value.symlinks)
    ensures work.Some? ==> Lists(tables, tree, HardLink, work.value.hardLinks) && InLinkOrder(work.value.hardLinks)
  {
    OwnedKeysArePlain(tables, tree);
    var keys := Keys(tree);
    PlaceableEverywhere(tables, tree, keys);
    var grouped := Grouped(tables, tree, keys);
    if grouped.None? { return None; }
    SortedWork(tables, tree, keys);
    var all := grouped.value;
    return Some(Work(Sort(all.files, (a, b) => ComesFirst(tables, a, b)), all.symlinks,
           Sort(all.hardLinks, NamedFirst)));
  }

  // ------------------------------------------------------------ from layers to a rootfs

  /** The same entries, canonical. */
  ghost predicate IsCanonicalised(raw: seq<seq<RawEntry>>, tables: Tables) {
    && |tables| == |raw| && (forall l | 0 <= l < |raw| :: |tables[l]| == |raw[l]|)
    && (forall l, e | 0 <= l < |raw| && 0 <= e < |raw[l]| :: CanonicalForm(raw[l][e]) == Some(tables[l][e]))
    && AllWellFormed(tables) && PathsNamed(tables)
  }

  /** The directories an image needs and what is placed in them. */
  datatype Plan = Plan(directories: seq<Path>, work: Work)

  /** What resolving an image gives a caller that places it directly: each thing
      it ends up with once, directories parents first, files in stream order and
      hard links in the order they were named. */
  ghost predicate IsPlanOf(tables: Tables, plan: Plan)
    requires PathsNamed(tables)
  {
    var tree := R.Replayed(tables).tree;
    && ListsDirectories(tree, plan.directories)
    && Lists(tables, tree, File, plan.work.files) && InStreamOrder(tables, plan.work.files)
    && Lists(tables, tree, Symlink, plan.work.symlinks)
    && Lists(tables, tree, HardLink, plan.work.hardLinks) && InLinkOrder(plan.work.hardLinks)
  }

  /** Resolves an image from tables as their layers spell them. There is a plan
      just when every path is accepted, nothing stood in the way and every path
      can be placed. */
  method Resolve(raw: seq<seq<RawEntry>>) returns (tables: Option<Tables>, plan: Option<Plan>)
    ensures tables.Some? <==> forall l, e | 0 <= l < |raw| && 0 <= e < |raw[l]| :: IsAccepted(raw[l][e])
    ensures tables.Some? ==> IsCanonicalised(raw, tables.value)
    ensures plan.Some? <==>
              && tables.Some? && PathsNamed(tables.value)
              && R.Replayed(tables.value).blocked == R.Nothing
              && Placeable(tables.value, R.Replayed(tables.value).tree)
    ensures plan.Some? ==> IsPlanOf(tables.value, plan.value)
  {
    var ok, canonical := Canonicalise(raw);
    if !ok { return None, None; }
    var s := Replay(canonical);
    if s.blocked != R.Nothing { return Some(canonical), None; }
    ReplayedIsOwned(canonical);
    var work := WorkOf(canonical, s.tree);
    if work.None? { return Some(canonical), None; }
    var dirs := Directories(s.tree);
    return Some(canonical), Some(Plan(dirs, work.value));
  }

  /** The whole of the fast route: an image resolved and placed straight from its
      plan. Where there is one, what stands is what the replay planned. */
  method Extract(raw: seq<seq<RawEntry>>) returns (tables: Option<Tables>, placed: Option<Rootfs>)
    ensures tables.Some? <==> forall l, e | 0 <= l < |raw| && 0 <= e < |raw[l]| :: IsAccepted(raw[l][e])
    ensures tables.Some? ==> IsCanonicalised(raw, tables.value)
    ensures placed.Some? <==>
              && tables.Some? && PathsNamed(tables.value)
              && R.Replayed(tables.value).blocked == R.Nothing
              && Placeable(tables.value, R.Replayed(tables.value).tree)
    ensures placed.Some? ==> placed.value == Planned(tables.value, R.Replayed(tables.value).tree)
  {
    var plan;
    tables, plan := Resolve(raw);
    if plan.None? { return tables, None; }
    ReplayedIsSound(tables.value);
    var rootfs := new PlannedRootfs();
    var work := plan.value.work;
    var done := rootfs.Extract(plan.value.directories, work.symlinks, work.files, work.hardLinks, tables.value,
                               R.Replayed(tables.value).tree);
    return tables, Some(rootfs.disk);
  }
}
