/** What an image ends up with, told from its entries alone: whatever was said of
    a path last. */
module Layering {
  import opened Paths
  import opened Layers
  import opened History
  import opened Links
  import opened Mirror
  import opened Owners
  import opened Simulation
  import opened Stopping
  import P = Plain
  import R = Replay
  import W = Walk

  /** A file, a symlink or a hard link to something else. */
  predicate IsLeaf(entry: Entry) {
    && entry.path != [] && entry.path != ROOT_ENTRY && !IsMarker(entry.path)
    && entry.kind != Directory && entry.kind != Unsupported
    && !(entry.kind == HardLink && entry.target == entry.path)
  }

  /** An entry that takes away a leaf at `p`: an opaque marker for a directory the
      leaf is in, unless its own layer has placed something at `p` before; another
      marker for the leaf or what holds it, unless its own layer has placed that;
      a directory at `p`; or another leaf, at `p` or at what holds it. */
  predicate TakesAway(tables: Tables, t: Owner, p: Path)
    requires Holds(tables, t)
  {
    var entry, before := At(tables, t), Written(tables[t.layer], t.entry);
    && entry.path != [] && entry.path != ROOT_ENTRY
    && if IsOpaque(entry.path) then Under(Parent(entry.path), p) && p !in before
       else if IsMarker(entry.path) then
         !IsBareMarker(entry.path) && AtOrUnder(Hidden(entry.path), p) && Hidden(entry.path) !in before
       else if entry.kind == Directory then entry.path == p
       else IsLeaf(entry) && AtOrUnder(entry.path, p)
  }

  /** The last word on `p`, as far as a point: a leaf placed there, and nothing
      since that takes it away. */
  ghost predicate HasTheLastWord(tables: Tables, layer: nat, entries: nat, p: Path, o: Owner) {
    && Holds(tables, o) && o.Precedes(Owner(layer, entries)) && IsLeaf(At(tables, o)) && At(tables, o).path == p
    && forall t: Owner | Holds(tables, t) && o.Precedes(t) && t.Precedes(Owner(layer, entries)) ::
         !TakesAway(tables, t, p)
  }

  /** A leaf stands there, placed by that entry. */
  predicate LeafStands(tree: R.Tree, p: Path, o: Owner) {
    p in tree && tree[p].kind != Directory && tree[p].owner == o
  }

  /** No directory entry is for a path where a symlink is placed: whether one gives
      way turns on where it leads. */
  ghost predicate LinksAreLeftAlone(tables: Tables, p: Path) {
    forall d: Owner, o: Owner | Holds(tables, d) && Holds(tables, o) && At(tables, d).path == p == At(tables, o).path ::
      !(At(tables, d).kind == Directory && At(tables, o).kind == Symlink)
  }

  // ------------------------------------------------------------ nothing under a leaf

  ghost predicate LeavesHoldNothing(tree: R.Tree) {
    forall p, q | p in tree && q in tree && Under(p, q) && p != [] :: tree[p].kind == Directory
  }

  lemma PlacingKeepsLeaves(tables: Tables, tree: R.Tree, owner: Owner, entry: Entry)
    requires LeavesHoldNothing(tree) && entry.path != [] && R.InTheWay(tree, tables, entry.path) == R.Nothing
    ensures LeavesHoldNothing(R.PlaceEntry(R.State(tree, R.Nothing), tables, owner, entry).tree)
  {
    ParentsKeepLeaves(tables, tree, owner, entry.path);
  }

  lemma ParentsKeepLeaves(tables: Tables, tree: R.Tree, owner: Owner, path: Path)
    requires LeavesHoldNothing(tree) && path != [] && R.InTheWay(tree, tables, path) == R.Nothing
    ensures var t := R.EnsureParents(tree, path, owner);
            LeavesHoldNothing(t) && forall a | a != [] && Under(a, path) :: R.Named(t, a, Directory)
  {
    var t := R.EnsureParents(tree, path, owner);
    forall a | a != [] && Under(a, path) ensures R.Named(t, a, Directory) {
      assert a == path[..|a|];
    }
    forall p, q | p in t && q in t && Under(p, q) && p != [] ensures t[p].kind == Directory {
      if q !in tree {
        UnderIsTransitive(p, q, path);
      }
    }
  }

  lemma EntryKeepsLeaves(tables: Tables, tree: R.Tree, owner: Owner, entry: Entry)
    requires LeavesHoldNothing(tree) && entry.path != []
    requires R.ReplayEntry(R.State(tree, R.Nothing), tables, owner, entry).blocked == R.Nothing
    ensures LeavesHoldNothing(R.ReplayEntry(R.State(tree, R.Nothing), tables, owner, entry).tree)
  {
    if WhiteoutOf(entry.path).None? {
      PlacingKeepsLeaves(tables, tree, owner, entry);
    }
  }

  lemma OneEntryKeepsLeaves(tables: Tables, layer: nat, entries: nat)
    requires PathsNamed(tables) && IsPoint(tables, layer, entries) && entries > 0
    requires R.FreeAt(tables, layer, entries) && R.FreeAt(tables, layer, entries - 1)
    requires LeavesHoldNothing(R.ReplayTo(tables, layer, entries - 1).tree)
    ensures LeavesHoldNothing(R.ReplayTo(tables, layer, entries).tree)
  {
    var o, before := Owner(layer, entries - 1), R.ReplayTo(tables, layer, entries - 1);
    assert Holds(tables, o) && before == R.State(before.tree, R.Nothing);
    EntryKeepsLeaves(tables, before.tree, o, At(tables, o));
  }

  lemma {:induction false} FreeKeepsLeaves(tables: Tables, layer: nat, entries: nat)
    requires PathsNamed(tables) && IsPoint(tables, layer, entries) && R.FreeAt(tables, layer, entries)
    ensures LeavesHoldNothing(R.ReplayTo(tables, layer, entries).tree)
    decreases layer, entries
  {
    R.FreeBefore(tables, layer, entries);
    if entries > 0 {
      FreeKeepsLeaves(tables, layer, entries - 1);
      OneEntryKeepsLeaves(tables, layer, entries);
    } else if layer > 0 {
      FreeKeepsLeaves(tables, layer - 1, |tables[layer - 1]|);
      assert R.ReplayTo(tables, layer, 0) == R.ReplayTo(tables, layer - 1, |tables[layer - 1]|);
    }
  }

  // ------------------------------------------------------------ one entry

  /** A leaf goes with an entry exactly when that takes it away. */
  ghost predicate LeafGoesWith(tables: Tables, tree: R.Tree, after: R.Tree, w: Owner, p: Path)
    requires Holds(tables, w)
  {
    forall o: Owner | o != w :: LeafStands(after, p, o) <==> LeafStands(tree, p, o) && !TakesAway(tables, w, p)
  }

  /** What is known at a point before its next entry. */
  ghost predicate IsReady(tables: Tables, tree: R.Tree, w: Owner)
    requires Holds(tables, w)
  {
    && OwnersMatch(tables, tree) && LeavesHoldNothing(tree)
    && P.NamesWhatItWrote(tree, w.layer, Written(tables[w.layer], w.entry))
  }

  lemma OpaqueTakesLeaves(tables: Tables, tree: R.Tree, w: Owner, p: Path)
    requires Holds(tables, w) && IsReady(tables, tree, w) && Canonical(At(tables, w).path)
    requires IsOpaque(At(tables, w).path)
    ensures LeafGoesWith(tables, tree, R.RemoveLower(tree, Parent(At(tables, w).path), w.layer), w, p)
  {
    RootEntryIsNotCanonical();
    var dir := Parent(At(tables, w).path);
    if p in tree && tree[p].kind != Directory {
      assert Owned(tables, p, tree[p]);
      assert !R.ScanKeeps(tree, dir, w.layer, p);
      assert p in Written(tables[w.layer], w.entry) <==> tree[p].namedBy == Some(w.layer);
    }
  }

  lemma NamedTakesLeaves(tables: Tables, tree: R.Tree, w: Owner, p: Path)
    requires Holds(tables, w) && IsReady(tables, tree, w) && Canonical(At(tables, w).path)
    requires var path := At(tables, w).path; IsMarker(path) && !IsOpaque(path) && !IsBareMarker(path)
    requires |Last(At(tables, w).path)| > |PREFIX|
    ensures LeafGoesWith(tables, tree, R.ApplyNamed(tree, Hidden(At(tables, w).path), w.layer), w, p)
  {
    RootEntryIsNotCanonical();
    var target := Hidden(At(tables, w).path);
    if target == ROOT_ENTRY {
      if p in tree && tree[p].kind != Directory {
        assert Owned(tables, p, tree[p]) && Ordinary(p[0]);
      }
    } else {
      assert target in Written(tables[w.layer], w.entry) <==> target in tree && tree[target].namedBy == Some(w.layer);
    }
  }

  lemma DirectoryTakesLeaves(tables: Tables, tree: R.Tree, w: Owner, p: Path)
    requires Holds(tables, w) && IsReady(tables, tree, w) && At(tables, w).kind == Directory
    requires WellFormed(At(tables, w)) && !IsMarker(At(tables, w).path) && LinksAreLeftAlone(tables, p)
    ensures LeafGoesWith(tables, tree, R.PlaceEntry(R.State(tree, R.Nothing), tables, w, At(tables, w)).tree, w, p)
  {
    RootEntryIsNotCanonical();
    if p in tree && tree[p].kind != Directory {
      assert Owned(tables, p, tree[p]);
      if p == At(tables, w).path {
        assert !R.Named(tree, p, Symlink);
      }
    }
  }

  lemma LeafTakesLeaves(tables: Tables, tree: R.Tree, w: Owner, p: Path)
    requires Holds(tables, w) && IsReady(tables, tree, w) && WellFormed(At(tables, w))
    requires At(tables, w).kind != Directory && At(tables, w).kind != Unsupported && !IsMarker(At(tables, w).path)
    ensures LeafGoesWith(tables, tree, R.PlaceEntry(R.State(tree, R.Nothing), tables, w, At(tables, w)).tree, w, p)
  {
    RootEntryIsNotCanonical();
  }

  lemma EntryTakesLeaves(tables: Tables, tree: R.Tree, w: Owner, p: Path)
    requires Holds(tables, w) && IsReady(tables, tree, w) && WellFormed(At(tables, w)) && LinksAreLeftAlone(tables, p)
    requires R.ReplayEntry(R.State(tree, R.Nothing), tables, w, At(tables, w)).blocked == R.Nothing
    ensures LeafGoesWith(tables, tree, R.ReplayEntry(R.State(tree, R.Nothing), tables, w, At(tables, w)).tree, w, p)
  {
    var path := At(tables, w).path;
    MarkersTold(path);
    if IsOpaque(path) {
      OpaqueTakesLeaves(tables, tree, w, p);
    } else if IsMarker(path) {
      NamedTakesLeaves(tables, tree, w, p);
    } else if At(tables, w).kind == Directory {
      DirectoryTakesLeaves(tables, tree, w, p);
    } else if At(tables, w).kind != Unsupported {
      LeafTakesLeaves(tables, tree, w, p);
    }
  }

  lemma MarkerPlacesNoLeaf(tables: Tables, tree: R.Tree, w: Owner, p: Path)
    requires Holds(tables, w) && At(tables, w).path != [] && IsMarker(At(tables, w).path)
    requires forall q | q in tree :: tree[q].owner != w
    requires R.ReplayEntry(R.State(tree, R.Nothing), tables, w, At(tables, w)).blocked == R.Nothing
    ensures !LeafStands(R.ReplayEntry(R.State(tree, R.Nothing), tables, w, At(tables, w)).tree, p, w)
  {
    MarkersTold(At(tables, w).path);
  }

  lemma PlacingPlacesLeaf(tables: Tables, tree: R.Tree, w: Owner, p: Path)
    requires Holds(tables, w) && WellFormed(At(tables, w)) && !IsMarker(At(tables, w).path)
    requires forall q | q in tree :: tree[q].owner != w
    ensures LeafStands(R.PlaceEntry(R.State(tree, R.Nothing), tables, w, At(tables, w)).tree, p, w) <==>
            IsLeaf(At(tables, w)) && At(tables, w).path == p
  {
    RootEntryIsNotCanonical();
  }

  /** And a leaf that is placed stands where it is placed. */
  lemma EntryPlacesLeaf(tables: Tables, tree: R.Tree, w: Owner, p: Path)
    requires Holds(tables, w) && WellFormed(At(tables, w))
    requires forall q | q in tree :: tree[q].owner != w
    requires R.ReplayEntry(R.State(tree, R.Nothing), tables, w, At(tables, w)).blocked == R.Nothing
    ensures LeafStands(R.ReplayEntry(R.State(tree, R.Nothing), tables, w, At(tables, w)).tree, p, w) <==>
            IsLeaf(At(tables, w)) && At(tables, w).path == p
  {
    if IsMarker(At(tables, w).path) {
      MarkerPlacesNoLeaf(tables, tree, w, p);
    } else {
      MarkersTold(At(tables, w).path);
      PlacingPlacesLeaf(tables, tree, w, p);
    }
  }

  lemma LeafAfterAnEntry(tables: Tables, tree: R.Tree, w: Owner, p: Path, o: Owner)
    requires Holds(tables, w) && IsReady(tables, tree, w) && WellFormed(At(tables, w)) && LinksAreLeftAlone(tables, p)
    requires forall q | q in tree :: tree[q].owner != w
    requires R.ReplayEntry(R.State(tree, R.Nothing), tables, w, At(tables, w)).blocked == R.Nothing
    ensures LeafStands(R.ReplayEntry(R.State(tree, R.Nothing), tables, w, At(tables, w)).tree, p, o) <==>
            if o == w then IsLeaf(At(tables, w)) && At(tables, w).path == p
            else LeafStands(tree, p, o) && !TakesAway(tables, w, p)
  {
    EntryTakesLeaves(tables, tree, w, p);
    EntryPlacesLeaf(tables, tree, w, p);
  }

  // ------------------------------------------------------------ whole images

  lemma OneWordMore(tables: Tables, layer: nat, entries: nat, p: Path, o: Owner)
    requires IsPoint(tables, layer, entries) && entries > 0
    ensures var w := Owner(layer, entries - 1);
            && Holds(tables, w)
            && (HasTheLastWord(tables, layer, entries, p, o) <==>
                  if o == w then IsLeaf(At(tables, w)) && At(tables, w).path == p
                  else HasTheLastWord(tables, layer, entries - 1, p, o) && !TakesAway(tables, w, p))
  {
    var w := Owner(layer, entries - 1);
    assert Holds(tables, w);
    forall t: Owner ensures t.Precedes(Owner(layer, entries)) <==> t.Precedes(w) || t == w {
    }
  }

  lemma WordsOfALayer(tables: Tables, layer: nat, p: Path, o: Owner)
    requires 0 < layer < |tables|
    ensures HasTheLastWord(tables, layer, 0, p, o) <==>
            HasTheLastWord(tables, layer - 1, |tables[layer - 1]|, p, o)
  {
    forall t: Owner | Holds(tables, t)
      ensures t.Precedes(Owner(layer, 0)) <==> t.Precedes(Owner(layer - 1, |tables[layer - 1]|))
    {
    }
  }

  ghost predicate IsPlacedOnce(tables: Tables) {
    forall l | 0 <= l < |tables| :: P.KeepsWhatItPlaces(tables[l])
  }

  lemma PointIsReady(tables: Tables, layer: nat, entries: nat)
    requires AllWellFormed(tables) && PathsNamed(tables) && IsPoint(tables, layer, entries) && entries < |tables[layer]|
    requires R.FreeAt(tables, layer, entries) && IsPlacedOnce(tables)
    ensures Holds(tables, Owner(layer, entries))
    ensures IsReady(tables, R.ReplayTo(tables, layer, entries).tree, Owner(layer, entries))
    ensures forall q | q in R.ReplayTo(tables, layer, entries).tree ::
              R.ReplayTo(tables, layer, entries).tree[q].owner != Owner(layer, entries)
  {
    ReplayKeepsOwners(tables, layer, entries);
    ReplayKeepsLinks(tables, layer, entries);
    FreeKeepsLeaves(tables, layer, entries);
    P.LayersNameWhatTheyWrite(tables, layer, entries);
  }

  lemma OneLeafMore(tables: Tables, layer: nat, entries: nat, p: Path, o: Owner)
    requires AllWellFormed(tables) && PathsNamed(tables) && IsPoint(tables, layer, entries) && entries > 0
    requires R.FreeAt(tables, layer, entries) && IsPlacedOnce(tables) && LinksAreLeftAlone(tables, p)
    ensures var w := Owner(layer, entries - 1);
            && Holds(tables, w)
            && (LeafStands(R.ReplayTo(tables, layer, entries).tree, p, o) <==>
                  if o == w then IsLeaf(At(tables, w)) && At(tables, w).path == p
                  else LeafStands(R.ReplayTo(tables, layer, entries - 1).tree, p, o) && !TakesAway(tables, w, p))
  {
    R.FreeBefore(tables, layer, entries);
    PointIsReady(tables, layer, entries - 1);
    var w, before := Owner(layer, entries - 1), R.ReplayTo(tables, layer, entries - 1);
    assert WellFormed(At(tables, w)) && before == R.State(before.tree, R.Nothing);
    assert R.ReplayTo(tables, layer, entries) == R.ReplayEntry(before, tables, w, At(tables, w));
    LeafAfterAnEntry(tables, before.tree, w, p, o);
  }

  /** A leaf stands at the path just when its entry had the last word there. */
  ghost predicate StandsByItsWord(tables: Tables, layer: nat, entries: nat, p: Path, o: Owner)
    requires PathsNamed(tables) && IsPoint(tables, layer, entries)
  {
    LeafStands(R.ReplayTo(tables, layer, entries).tree, p, o) <==> HasTheLastWord(tables, layer, entries, p, o)
  }

  lemma WordsThroughAnEntry(tables: Tables, layer: nat, entries: nat, p: Path, o: Owner)
    requires AllWellFormed(tables) && PathsNamed(tables) && IsPoint(tables, layer, entries) && entries > 0
    requires R.FreeAt(tables, layer, entries) && IsPlacedOnce(tables) && LinksAreLeftAlone(tables, p)
    requires StandsByItsWord(tables, layer, entries - 1, p, o)
    ensures StandsByItsWord(tables, layer, entries, p, o)
  {
    OneWordMore(tables, layer, entries, p, o);
    OneLeafMore(tables, layer, entries, p, o);
  }

  lemma WordsIntoALayer(tables: Tables, layer: nat, p: Path, o: Owner)
    requires PathsNamed(tables) && layer < |tables|
    requires layer > 0 ==> StandsByItsWord(tables, layer - 1, |tables[layer - 1]|, p, o)
    ensures StandsByItsWord(tables, layer, 0, p, o)
  {
    if layer > 0 { WordsOfALayer(tables, layer, p, o); }
  }

  lemma {:induction false} WordsThroughALayer(tables: Tables, layer: nat, entries: nat, p: Path, o: Owner)
    requires AllWellFormed(tables) && PathsNamed(tables) && IsPoint(tables, layer, entries)
    requires R.FreeAt(tables, layer, entries) && IsPlacedOnce(tables) && LinksAreLeftAlone(tables, p)
    requires StandsByItsWord(tables, layer, 0, p, o)
    ensures StandsByItsWord(tables, layer, entries, p, o)
    decreases entries
  {
    if entries > 0 {
      R.FreeBefore(tables, layer, entries);
      WordsThroughALayer(tables, layer, entries - 1, p, o);
      WordsThroughAnEntry(tables, layer, entries, p, o);
    }
  }

  /** At every point of a replay with nothing in the way, a leaf stands at a path
      if and only if its entry has had the last word there. */
  lemma {:induction false} LastWordsStand(tables: Tables, layer: nat, entries: nat, p: Path, o: Owner)
    requires AllWellFormed(tables) && PathsNamed(tables) && IsPoint(tables, layer, entries)
    requires R.FreeAt(tables, layer, entries) && IsPlacedOnce(tables) && LinksAreLeftAlone(tables, p)
    ensures StandsByItsWord(tables, layer, entries, p, o)
    decreases layer
  {
    FreeFromTheStart(tables, layer, entries);
    if layer > 0 {
      R.FreeBefore(tables, layer, 0);
      LastWordsStand(tables, layer - 1, |tables[layer - 1]|, p, o);
    }
    WordsIntoALayer(tables, layer, p, o);
    WordsThroughALayer(tables, layer, entries, p, o);
  }

  /** What an image told plain leaves of files, symlinks and hard links, on every
      host and by either route: at each path what had the last word there, and
      nothing else. */
  lemma LastWordsAreWalked(tables: Tables, host: W.Host, p: Path, o: Owner)
    requires AllWellFormed(tables) && PathsNamed(tables) && tables != [] && P.PlainImage(tables)
    requires R.Replayed(tables).blocked == R.Nothing && LinksAreLeftAlone(tables, p)
    ensures var l, e := |tables| - 1, |tables[|tables| - 1]|;
            var walked := Walked(tables, host, l, e);
            && walked.Walked?
            && (HasTheLastWord(tables, l, e, p, o) <==> LeafStands(R.Replayed(tables).tree, p, o))
            && (HasTheLastWord(tables, l, e, p, o) <==>
                  p in walked.state.disk && walked.state.disk[p].placed == o
                  && !walked.state.disk[p].inode.DirectoryInode?)
  {
    var l, e := |tables| - 1, |tables[|tables| - 1]|;
    assert R.FreeAt(tables, l, e);
    assert forall i | 0 <= i < |tables| :: P.PlainLayer(tables[i]);
    LastWordsStand(tables, l, e, p, o);
    P.PlainImagesMirror(tables, host);
    assert AgreesAt(tables, host, l, e);
    ReplayedIsOwned(tables);
    var tree, disk := R.Replayed(tables).tree, Walked(tables, host, l, e).state.disk;
    if p in disk { assert Matches(tables, tree[p], disk[p]); }
    if p in tree { assert Owned(tables, p, tree[p]); }
  }
}
