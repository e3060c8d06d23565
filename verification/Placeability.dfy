/** When an image resolved with nothing in the way can be placed straight from its
    plan. */
module Placeability {
  import opened Paths
  import opened Layers
  import opened History
  import opened Layering
  import opened Owners
  import opened Placement
  import opened TwoRoutes
  import R = Replay

  /** What the hard link was made against at its own turn stands there still. */
  ghost predicate StillLinks(tables: Tables, tree: R.Tree, o: Owner)
    requires PathsNamed(tables) && Holds(tables, o)
  {
    var target := At(tables, o).target;
    LinksNow(tables, o) && target in tree && tree[target].owner == LinkedTo(tables, o).owner
  }

  /** No sparse file is left, and every hard link that is still names what it was
      made against. */
  ghost predicate NothingNeedsAWalk(tables: Tables, tree: R.Tree)
    requires PathsNamed(tables)
  {
    && (forall p | p in tree :: tree[p].kind != Sparse)
    && forall p | R.Named(tree, p, HardLink) && Holds(tables, tree[p].owner) :: StillLinks(tables, tree, tree[p].owner)
  }

  lemma NothingStandsInTheWay(tree: R.Tree, p: Path)
    requires LeavesHoldNothing(tree) && p in tree
    ensures !BehindALink(tree, p)
  {
    if R.BlockedBy(tree, p).Some? {
      assert Under(R.BlockedBy(tree, p).value, p);
    }
  }

  /** An image resolved with nothing in the way can be placed straight from its
      plan if and only if no sparse file is left in it and no hard link has had
      what it names replaced. */
  lemma PlaceableIsSettled(tables: Tables)
    requires AllWellFormed(tables) && PathsNamed(tables) && tables != []
    requires R.Replayed(tables).blocked == R.Nothing
    ensures Placeable(tables, R.Replayed(tables).tree) <==> NothingNeedsAWalk(tables, R.Replayed(tables).tree)
  {
    var tree, l, e := R.Replayed(tables).tree, |tables| - 1, |tables[|tables| - 1]|;
    assert R.FreeAt(tables, l, e);
    FreeKeepsLeaves(tables, l, e);
    ReplayedIsOwned(tables);
    if Placeable(tables, tree) {
      forall p | R.Named(tree, p, HardLink) && Holds(tables, tree[p].owner)
        ensures StillLinks(tables, tree, tree[p].owner)
      {
        LinkedAtItsOwnTime(tables, p);
      }
    }
    if NothingNeedsAWalk(tables, tree) {
      forall p | p in tree
        ensures !BehindALink(tree, p)
        ensures tree[p].kind == HardLink ==> Holds(tables, tree[p].owner)
        ensures R.Named(tree, p, HardLink) ==> !BehindALink(tree, At(tables, tree[p].owner).target)
      {
        NothingStandsInTheWay(tree, p);
        assert Owned(tables, p, tree[p]);
        if tree[p].kind == HardLink {
          assert StillLinks(tables, tree, tree[p].owner);
          NothingStandsInTheWay(tree, At(tables, tree[p].owner).target);
        }
      }
    }
  }
}
