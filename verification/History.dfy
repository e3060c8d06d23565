/** What a replay says of the past: what a layer has written so far, and what
    each hard link was made against. */
module History {
  import opened Paths
  import opened Layers
  import opened Links
  import R = Replay
  import W = Walk

  /** An entry the walk counts as written. */
  predicate Places(entry: Entry) {
    entry.path != [] && entry.path != ROOT_ENTRY && WhiteoutOf(entry.path).None? && entry.kind != Unsupported
  }

  /** What the first entries of a layer place. */
  function Written(table: Table, entries: nat): set<Path>
    requires entries <= |table|
  {
    set e | 0 <= e < entries && Places(table[e]) :: table[e].path
  }

  /** The inode an entry makes. A hard link's is that of whatever stood at its
      target when its turn came. */
  ghost function InodeMade(tables: Tables, o: Owner): W.Inode
    requires PathsNamed(tables) && Holds(tables, o)
    decreases o.layer, o.entry
  {
    match At(tables, o).kind
    case File | Sparse => W.FileInode(o)
    case Symlink => W.LinkInode(o, At(tables, o).link)
    case HardLink =>
      if LinksNow(tables, o) then InodeMade(tables, LinkedTo(tables, o).owner) else W.DirectoryInode
    case Directory | Unsupported => W.DirectoryInode
  }

  /** Something that can be linked stands at the target when the link's turn
      comes. */
  ghost predicate LinksNow(tables: Tables, o: Owner)
    requires PathsNamed(tables) && Holds(tables, o)
  {
    var tree, target := R.ReplayTo(tables, o.layer, o.entry).tree, At(tables, o).target;
    && target in tree && tree[target].kind != Directory
    && Holds(tables, tree[target].owner) && tree[target].owner.Precedes(o)
  }

  ghost function LinkedTo(tables: Tables, o: Owner): R.Node
    requires PathsNamed(tables) && Holds(tables, o) && LinksNow(tables, o)
  {
    R.ReplayTo(tables, o.layer, o.entry).tree[At(tables, o).target]
  }

  ghost function NodeInode(tables: Tables, node: R.Node): W.Inode
    requires PathsNamed(tables)
  {
    if node.kind == Directory || !Holds(tables, node.owner) then W.DirectoryInode else InodeMade(tables, node.owner)
  }

  /** The disk a tree stands for. */
  ghost function Standing(tables: Tables, tree: R.Tree): W.Disk
    requires PathsNamed(tables)
  {
    map p | p in tree && p != ROOT_ENTRY :: W.Slot(tree[p].owner, NodeInode(tables, tree[p]))
  }

  // ------------------------------------------------------------ owners keep their places

  /** What an entry does not place was there before it. */
  lemma OthersWereThere(tables: Tables, s: R.State, owner: Owner, entry: Entry, p: Path)
    requires entry.path != [] && p in R.ReplayEntry(s, tables, owner, entry).tree
    ensures var after := R.ReplayEntry(s, tables, owner, entry).tree;
            || (p in s.tree && after[p].owner == s.tree[p].owner && after[p].kind == s.tree[p].kind)
            || after[p].owner == owner
  {
    match WhiteoutOf(entry.path)
    case Some(Opaque(_)) =>
    case Some(Named(_)) =>
    case Some(Invalid) => OthersStay(R.State(s.tree, R.TheWalkStopsHere), tables, owner, entry, p);
    case None =>
      var blocked := s.blocked.Worst(R.InTheWay(s.tree, tables, entry.path));
      OthersStay(R.State(s.tree, blocked.Worst(R.LinksSomewhere(s.tree, tables, entry))), tables, owner, entry, p);
  }

  /** Whether one point of a replay is another or comes before it. */
  predicate IsBy(layer: nat, entries: nat, l: nat, e: nat) {
    layer < l || (layer == l && entries <= e)
  }

  ghost predicate StandsAs(tables: Tables, l: nat, e: nat, p: Path, owner: Owner, kind: Kind)
    requires PathsNamed(tables) && IsPoint(tables, l, e)
  {
    var tree := R.ReplayTo(tables, l, e).tree;
    p in tree && tree[p].owner == owner && tree[p].kind == kind
  }

  lemma StoodAnEntryBefore(tables: Tables, l: nat, e: nat, p: Path, owner: Owner, kind: Kind)
    requires PathsNamed(tables) && IsPoint(tables, l, e) && e > 0 && StandsAs(tables, l, e, p, owner, kind)
    requires owner != Owner(l, e - 1)
    ensures StandsAs(tables, l, e - 1, p, owner, kind)
  {
    var now := Owner(l, e - 1);
    assert Holds(tables, now);
    var before := R.ReplayTo(tables, l, e - 1);
    assert R.ReplayTo(tables, l, e) == R.ReplayEntry(before, tables, now, At(tables, now));
    OthersWereThere(tables, before, now, At(tables, now), p);
  }

  lemma StoodALayerBefore(tables: Tables, l: nat, p: Path, owner: Owner, kind: Kind)
    requires PathsNamed(tables) && IsPoint(tables, l, 0) && l > 0 && StandsAs(tables, l, 0, p, owner, kind)
    ensures StandsAs(tables, l - 1, |tables[l - 1]|, p, owner, kind)
  {
    assert R.ReplayTo(tables, l, 0) == R.ReplayTo(tables, l - 1, |tables[l - 1]|);
  }

  /** What an entry placed, if it stands later, has stood there since. */
  lemma {:induction false} StoodSince(
      tables: Tables, layer: nat, entries: nat, l: nat, e: nat, p: Path, owner: Owner, kind: Kind)
    requires PathsNamed(tables) && IsPoint(tables, layer, entries) && IsPoint(tables, l, e)
    requires IsBy(layer, entries, l, e) && StandsAs(tables, l, e, p, owner, kind) && IsNow(owner, layer, entries)
    ensures StandsAs(tables, layer, entries, p, owner, kind)
    decreases l, e
  {
    if !(layer == l && entries == e) {
      if e > 0 {
        StoodAnEntryBefore(tables, l, e, p, owner, kind);
        StoodSince(tables, layer, entries, l, e - 1, p, owner, kind);
      } else {
        StoodALayerBefore(tables, l, p, owner, kind);
        StoodSince(tables, layer, entries, l - 1, |tables[l - 1]|, p, owner, kind);
      }
    }
  }
}
