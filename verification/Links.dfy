/** What hard links name, once nothing has stood in the way of a replay. */
module Links {
  import opened Paths
  import opened Layers
  import R = Replay

  predicate IsNow(owner: Owner, layer: nat, entries: nat) {
    owner.Precedes(Owner(layer, entries))
  }

  ghost predicate OwnersPast(tree: R.Tree, layer: nat, entries: nat) {
    forall p | p in tree :: IsNow(tree[p].owner, layer, entries)
  }

  /** A hard link that still stands names what it was linked to when it was
      placed, unless something has taken that path since. */
  ghost predicate LinksHold(tables: Tables, tree: R.Tree) {
    forall p | p in tree && tree[p].kind == HardLink && Holds(tables, tree[p].owner) ::
      LinkHolds(tables, tree, p)
  }

  predicate LinkHolds(tables: Tables, tree: R.Tree, p: Path)
    requires p in tree && Holds(tables, tree[p].owner)
  {
    var target := At(tables, tree[p].owner).target;
    target in tree ==>
      || tree[p].owner.Precedes(tree[target].owner)
      || (&& tree[target].owner.Precedes(tree[p].owner)
          && tree[target].kind != Directory && tree[target].kind != Unsupported)
  }

  lemma RemovalKeepsLinks(tables: Tables, tree: R.Tree, gone: R.Tree, layer: nat, entries: nat)
    requires LinksHold(tables, tree) && OwnersPast(tree, layer, entries)
    requires forall p | p in gone :: p in tree && gone[p] == tree[p]
    ensures LinksHold(tables, gone) && OwnersPast(gone, layer, entries)
  {
  }

  /** Whatever is placed now is later than every link that stands. */
  lemma PlacingKeepsLinks(tables: Tables, tree: R.Tree, after: R.Tree, owner: Owner)
    requires LinksHold(tables, tree) && OwnersPast(tree, owner.layer, owner.entry)
    requires forall p | p in after ::
               || (p in tree && after[p].owner == tree[p].owner && after[p].kind == tree[p].kind)
               || after[p].owner == owner
    requires forall p | p in after && after[p].kind == HardLink && after[p].owner == owner && Holds(tables, owner) ::
               LinkHolds(tables, after, p)
    ensures LinksHold(tables, after) && OwnersPast(after, owner.layer, owner.entry + 1)
  {
  }

  /** Whatever an entry does not place is what it was. */
  lemma OthersStay(s: R.State, tables: Tables, owner: Owner, entry: Entry, p: Path)
    requires entry.path != [] && p in R.PlaceEntry(s, tables, owner, entry).tree
    ensures var after := R.PlaceEntry(s, tables, owner, entry).tree;
            || (p in s.tree && after[p].owner == s.tree[p].owner && after[p].kind == s.tree[p].kind)
            || after[p].owner == owner
  {
  }

  lemma PlaceEntryKeepsLinks(tables: Tables, tree: R.Tree, owner: Owner, entry: Entry)
    requires LinksHold(tables, tree) && OwnersPast(tree, owner.layer, owner.entry)
    requires Holds(tables, owner) && At(tables, owner) == entry && entry.path != []
    requires R.LinksSomewhere(tree, tables, entry) == R.Nothing
    ensures var after := R.PlaceEntry(R.State(tree, R.Nothing), tables, owner, entry).tree;
            LinksHold(tables, after) && OwnersPast(after, owner.layer, owner.entry + 1)
  {
    var after := R.PlaceEntry(R.State(tree, R.Nothing), tables, owner, entry).tree;
    forall p | p in after && after[p].kind == HardLink && after[p].owner == owner ensures LinkHolds(tables, after, p) {
      assert p == entry.path && entry.kind == HardLink && entry.target != entry.path;
      assert entry.target in tree && !AtOrUnder(entry.path, entry.target);
    }
    forall p | p in after
      ensures (p in tree && after[p].owner == tree[p].owner && after[p].kind == tree[p].kind) || after[p].owner == owner
    {
      OthersStay(R.State(tree, R.Nothing), tables, owner, entry, p);
    }
    PlacingKeepsLinks(tables, tree, after, owner);
  }

  lemma EntryKeepsLinks(tables: Tables, tree: R.Tree, owner: Owner, entry: Entry)
    requires LinksHold(tables, tree) && OwnersPast(tree, owner.layer, owner.entry)
    requires Holds(tables, owner) && At(tables, owner) == entry && entry.path != []
    requires R.ReplayEntry(R.State(tree, R.Nothing), tables, owner, entry).blocked == R.Nothing
    ensures var after := R.ReplayEntry(R.State(tree, R.Nothing), tables, owner, entry).tree;
            LinksHold(tables, after) && OwnersPast(after, owner.layer, owner.entry + 1)
  {
    match WhiteoutOf(entry.path)
    case Some(Opaque(dir)) =>
      RemovalKeepsLinks(tables, tree, R.RemoveLower(tree, dir, owner.layer), owner.layer, owner.entry);
    case Some(Named(target)) =>
      RemovalKeepsLinks(tables, tree, R.ApplyNamed(tree, target, owner.layer), owner.layer, owner.entry);
    case Some(Invalid) => assert false;
    case None => PlaceEntryKeepsLinks(tables, tree, owner, entry);
  }

  ghost predicate LinksHoldAt(tables: Tables, layer: nat, entries: nat)
    requires IsPoint(tables, layer, entries) && PathsNamed(tables)
  {
    var tree := R.ReplayTo(tables, layer, entries).tree;
    LinksHold(tables, tree) && OwnersPast(tree, layer, entries)
  }

  lemma LinksHoldAfter(tables: Tables, layer: nat, entries: nat)
    requires IsPoint(tables, layer, entries) && entries > 0 && PathsNamed(tables)
    requires R.FreeAt(tables, layer, entries) && LinksHoldAt(tables, layer, entries - 1)
    ensures LinksHoldAt(tables, layer, entries)
  {
    R.FreeBefore(tables, layer, entries);
    var owner := Owner(layer, entries - 1);
    assert Holds(tables, owner);
    var before := R.ReplayTo(tables, layer, entries - 1);
    assert before == R.State(before.tree, R.Nothing);
    assert R.ReplayTo(tables, layer, entries) == R.ReplayEntry(before, tables, owner, At(tables, owner));
    EntryKeepsLinks(tables, before.tree, owner, At(tables, owner));
  }

  lemma LinksHoldInTheNextLayer(tables: Tables, layer: nat)
    requires PathsNamed(tables) && 0 < layer < |tables| && LinksHoldAt(tables, layer - 1, |tables[layer - 1]|)
    ensures LinksHoldAt(tables, layer, 0)
  {
    assert R.ReplayTo(tables, layer, 0) == R.ReplayTo(tables, layer - 1, |tables[layer - 1]|);
  }

  lemma {:induction false} ReplayKeepsLinks(tables: Tables, layer: nat, entries: nat)
    requires IsPoint(tables, layer, entries) && PathsNamed(tables)
    requires R.FreeAt(tables, layer, entries)
    ensures LinksHoldAt(tables, layer, entries)
    decreases layer, entries
  {
    R.FreeBefore(tables, layer, entries);
    if entries > 0 {
      ReplayKeepsLinks(tables, layer, entries - 1);
      LinksHoldAfter(tables, layer, entries);
    } else if layer > 0 {
      ReplayKeepsLinks(tables, layer - 1, |tables[layer - 1]|);
      LinksHoldInTheNextLayer(tables, layer);
    }
  }

  lemma ReplayedLinksHold(tables: Tables)
    requires PathsNamed(tables) && R.Replayed(tables).blocked == R.Nothing
    ensures LinksHold(tables, R.Replayed(tables).tree)
  {
    if tables != [] {
      ReplayKeepsLinks(tables, |tables| - 1, |tables[|tables| - 1]|);
    }
  }
}
