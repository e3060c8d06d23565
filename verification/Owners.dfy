/** What every replay keeps true of the tree, whatever stood in the way. */
module Owners {
  import opened Paths
  import opened Layers
  import R = Replay

  /** A node stands at a canonical path, or is the rootfs. One that is not a
      directory was placed, at its own path, by an entry of its own kind; a
      directory can be one nobody's entry names. */
  predicate Owned(tables: Tables, path: Path, node: R.Node) {
    && Holds(tables, node.owner)
    && node.kind != Unsupported
    && (Canonical(path) || (path == ROOT_ENTRY && node.kind == Directory))
    && (node.kind != Directory ==> At(tables, node.owner).kind == node.kind && At(tables, node.owner).path == path)
  }

  ghost predicate OwnersMatch(tables: Tables, tree: R.Tree) {
    forall p | p in tree :: Owned(tables, p, tree[p])
  }

  lemma PlacingKeepsOwners(tables: Tables, s: R.State, owner: Owner, entry: Entry)
    requires OwnersMatch(tables, s.tree) && Holds(tables, owner) && At(tables, owner) == entry && WellFormed(entry)
    ensures OwnersMatch(tables, R.PlaceEntry(s, tables, owner, entry).tree)
  {
    if entry.kind != Unsupported {
      var after := R.PlaceEntry(s, tables, owner, entry).tree;
      forall p | p in after ensures Owned(tables, p, after[p]) {
        var parents := R.EnsureParents(s.tree, entry.path, owner);
        if p != entry.path { assert p in parents && after[p] == parents[p]; }
      }
    }
  }

  lemma EntryKeepsOwners(tables: Tables, s: R.State, owner: Owner, entry: Entry)
    requires OwnersMatch(tables, s.tree) && Holds(tables, owner) && At(tables, owner) == entry && WellFormed(entry)
    ensures OwnersMatch(tables, R.ReplayEntry(s, tables, owner, entry).tree)
  {
    match WhiteoutOf(entry.path)
    case Some(Opaque(_)) =>
    case Some(Named(target)) =>
    case _ =>
      PlacingKeepsOwners(tables, R.State(s.tree, R.TheWalkStopsHere), owner, entry);
      PlacingKeepsOwners(tables, R.State(s.tree,
        s.blocked.Worst(R.InTheWay(s.tree, tables, entry.path)).Worst(R.LinksSomewhere(s.tree, tables, entry))),
          owner, entry);
  }

  lemma {:induction false} ReplayKeepsOwners(tables: Tables, layer: nat, entries: nat)
    requires IsPoint(tables, layer, entries) && PathsNamed(tables) && AllWellFormed(tables)
    ensures OwnersMatch(tables, R.ReplayTo(tables, layer, entries).tree)
    decreases layer, entries
  {
    if entries > 0 {
      var owner := Owner(layer, entries - 1);
      assert Holds(tables, owner) && WellFormed(At(tables, owner));
      ReplayKeepsOwners(tables, layer, entries - 1);
      EntryKeepsOwners(tables, R.ReplayTo(tables, layer, entries - 1), owner, At(tables, owner));
    } else if layer > 0 {
      ReplayKeepsOwners(tables, layer - 1, |tables[layer - 1]|);
    }
  }

  lemma ReplayedIsOwned(tables: Tables)
    requires PathsNamed(tables) && AllWellFormed(tables)
    ensures OwnersMatch(tables, R.Replayed(tables).tree)
  {
    if tables != [] {
      ReplayKeepsOwners(tables, |tables| - 1, |tables[|tables| - 1]|);
    }
  }
}
