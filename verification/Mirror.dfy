/** Whole images: when replaying the layers is walking them. */
module Mirror {
  import opened Paths
  import opened Layers
  import opened History
  import opened Links
  import opened Owners
  import opened Simulation
  import R = Replay
  import W = Walk

  ghost function Walked(tables: Tables, host: W.Host, layer: nat, entries: nat): W.Outcome
    requires IsPoint(tables, layer, entries) && PathsNamed(tables)
  {
    W.WalkTo(tables, host, W.PLACE_ALL, layer, entries)
  }

  lemma WellFormedPathsAreNamed(tables: Tables)
    requires AllWellFormed(tables)
    ensures PathsNamed(tables)
  {
  }

  /** The walk has not stopped, and its disk is what the tree says. */
  ghost predicate AgreesAt(tables: Tables, host: W.Host, layer: nat, entries: nat)
    requires IsPoint(tables, layer, entries) && PathsNamed(tables)
  {
    var walked := Walked(tables, host, layer, entries);
    walked.Walked? && Agrees(tables, R.ReplayTo(tables, layer, entries).tree, walked.state.disk)
  }

  /** What the replay alone says the walk has come to. */
  ghost function Foreseen(tables: Tables, layer: nat, entries: nat): W.State
    requires IsPoint(tables, layer, entries) && PathsNamed(tables)
  {
    W.State(Standing(tables, R.ReplayTo(tables, layer, entries).tree), Written(tables[layer], entries))
  }

  /** The next entry means the same to the tree and to a walk. The walk itself is
      not asked. */
  ghost predicate GuardAt(tables: Tables, host: W.Host, layer: nat, entries: nat)
    requires IsPoint(tables, layer, entries) && entries < |tables[layer]| && PathsNamed(tables)
  {
    var owner := Owner(layer, entries);
    assert Holds(tables, owner);
    Guard(tables, R.ReplayTo(tables, layer, entries).tree, Foreseen(tables, layer, entries), host, owner,
          At(tables, owner))
  }

  /** At this point and at every earlier one. */
  ghost predicate AgreesUpTo(tables: Tables, host: W.Host, layer: nat, entries: nat)
    requires IsPoint(tables, layer, entries) && PathsNamed(tables)
    decreases layer, entries
  {
    && AgreesAt(tables, host, layer, entries)
    && (if entries > 0 then AgreesUpTo(tables, host, layer, entries - 1)
        else layer > 0 ==> AgreesUpTo(tables, host, layer - 1, |tables[layer - 1]|))
  }

  /** Before every entry there has been so far. */
  ghost predicate GuardedUpTo(tables: Tables, host: W.Host, layer: nat, entries: nat)
    requires IsPoint(tables, layer, entries) && PathsNamed(tables)
    decreases layer, entries
  {
    if entries > 0 then
      GuardAt(tables, host, layer, entries - 1) && GuardedUpTo(tables, host, layer, entries - 1)
    else layer > 0 ==> GuardedUpTo(tables, host, layer - 1, |tables[layer - 1]|)
  }

  /** The walk is where the replay says it is, and agrees with it. */
  ghost predicate InvAt(tables: Tables, host: W.Host, layer: nat, entries: nat)
    requires IsPoint(tables, layer, entries) && PathsNamed(tables)
  {
    && Walked(tables, host, layer, entries) == W.Walked(Foreseen(tables, layer, entries))
    && Inv(tables, R.ReplayTo(tables, layer, entries).tree, Foreseen(tables, layer, entries), layer)
  }

  // ------------------------------------------------- the walk, foreseen

  /** An entry changes only the names it places. */
  ghost predicate OnlyPlaces(before: W.Disk, after: W.Disk, owner: Owner) {
    forall p | p in after :: after[p].placed == owner || (p in before && after[p] == before[p])
  }

  lemma PlacingOnlyPlaces(s: W.State, host: W.Host, owner: Owner, entry: Entry)
    requires entry.path != [] && W.PlaceEntry(s, host, owner, entry, false).Walked?
    ensures OnlyPlaces(s.disk, W.PlaceEntry(s, host, owner, entry, false).state.disk, owner)
  {
    assert OnlyPlaces(s.disk, W.MakeParents(s.disk, entry.path, owner), owner);
  }

  lemma EntryOnlyPlaces(s: W.State, host: W.Host, owner: Owner, entry: Entry)
    requires entry.path != [] && W.WalkEntry(s, host, owner, entry, false).Walked?
    ensures OnlyPlaces(s.disk, W.WalkEntry(s, host, owner, entry, false).state.disk, owner)
  {
    if entry.path != ROOT_ENTRY && WhiteoutOf(entry.path).None? && entry.kind != Unsupported {
      PlacingOnlyPlaces(s, host, owner, entry);
    }
  }

  lemma EntryIsWritten(s: W.State, host: W.Host, owner: Owner, entry: Entry)
    requires entry.path != [] && W.WalkEntry(s, host, owner, entry, false).Walked?
    ensures W.WalkEntry(s, host, owner, entry, false).state.written ==
            s.written + if Places(entry) then {entry.path} else {}
  {
  }

  /** A hard link entry that places something places what stood at its target. */
  lemma HardLinkPlaces(s: W.State, host: W.Host, owner: Owner, entry: Entry)
    requires entry.path != [] && W.WalkEntry(s, host, owner, entry, false).Walked? && entry.kind == HardLink
    requires forall p | p in s.disk :: s.disk[p].placed != owner
    ensures var after := W.WalkEntry(s, host, owner, entry, false).state.disk;
            entry.path in after && after[entry.path].placed == owner ==>
              && entry.target in s.disk && !s.disk[entry.target].inode.DirectoryInode?
              && after[entry.path].inode == s.disk[entry.target].inode
  {
  }

  lemma LinkIsAsMade(tables: Tables, s: W.State, host: W.Host, owner: Owner)
    requires PathsNamed(tables) && Holds(tables, owner) && At(tables, owner).kind == HardLink
    requires var tree := R.ReplayTo(tables, owner.layer, owner.entry).tree;
             && s.disk == Standing(tables, tree) && OwnersMatch(tables, tree)
             && OwnersPast(tree, owner.layer, owner.entry)
    requires W.WalkEntry(s, host, owner, At(tables, owner), false).Walked?
    ensures var after, path := W.WalkEntry(s, host, owner, At(tables, owner), false).state.disk, At(tables, owner).path;
            path in after && after[path].placed == owner ==> after[path].inode == InodeMade(tables, owner)
  {
    HardLinkPlaces(s, host, owner, At(tables, owner));
    var tree, target := R.ReplayTo(tables, owner.layer, owner.entry).tree, At(tables, owner).target;
    if target in s.disk {
      assert Owned(tables, target, tree[target]);
    }
  }

  lemma StepIsForeseen(tables: Tables, s: W.State, host: W.Host, owner: Owner, tree: R.Tree)
    requires PathsNamed(tables) && Holds(tables, owner) && OwnersMatch(tables, tree)
    requires var before := R.ReplayTo(tables, owner.layer, owner.entry).tree;
             && s.disk == Standing(tables, before) && Agrees(tables, before, s.disk) && OwnersMatch(tables, before)
             && OwnersPast(before, owner.layer, owner.entry)
    requires W.WalkEntry(s, host, owner, At(tables, owner), false).Walked?
    requires Agrees(tables, tree, W.WalkEntry(s, host, owner, At(tables, owner), false).state.disk)
    ensures W.WalkEntry(s, host, owner, At(tables, owner), false).state.disk == Standing(tables, tree)
  {
    var before := R.ReplayTo(tables, owner.layer, owner.entry).tree;
    var after := W.WalkEntry(s, host, owner, At(tables, owner), false).state.disk;
    EntryOnlyPlaces(s, host, owner, At(tables, owner));
    forall p | p in after ensures after[p].inode == NodeInode(tables, tree[p]) {
      assert Matches(tables, tree[p], after[p]) && Owned(tables, p, tree[p]);
      if tree[p].kind == HardLink {
        if after[p].placed == owner {
          LinkIsAsMade(tables, s, host, owner);
        } else {
          assert Matches(tables, before[p], s.disk[p]) && Owned(tables, p, before[p]);
        }
      }
    }
  }

  lemma OneMoreEntry(tables: Tables, host: W.Host, layer: nat, entries: nat)
    requires AllWellFormed(tables) && PathsNamed(tables) && IsPoint(tables, layer, entries) && entries > 0
    requires R.FreeAt(tables, layer, entries) && InvAt(tables, host, layer, entries - 1)
    ensures GuardAt(tables, host, layer, entries - 1) ==> InvAt(tables, host, layer, entries)
    ensures !GuardAt(tables, host, layer, entries - 1) ==> !AgreesAt(tables, host, layer, entries)
  {
    var owner := Owner(layer, entries - 1);
    assert Holds(tables, owner);
    var entry := At(tables, owner);
    assert WellFormed(entry);
    var before := R.ReplayTo(tables, layer, entries - 1);
    var s := Foreseen(tables, layer, entries - 1);
    R.NothingBlockedSoFar(tables, layer, entries);
    assert before == R.State(before.tree, R.Nothing);
    assert R.ReplayTo(tables, layer, entries) == R.ReplayEntry(before, tables, owner, entry);
    assert Walked(tables, host, layer, entries) == W.WalkEntry(s, host, owner, entry, false);
    EntryStep(tables, before.tree, s, host, owner, entry);
    if GuardAt(tables, host, layer, entries - 1) {
      EntryIsForeseen(tables, host, layer, entries);
    }
  }

  lemma EntryIsForeseen(tables: Tables, host: W.Host, layer: nat, entries: nat)
    requires AllWellFormed(tables) && PathsNamed(tables) && IsPoint(tables, layer, entries) && entries > 0
    requires R.FreeAt(tables, layer, entries) && InvAt(tables, host, layer, entries - 1)
    requires AgreesAt(tables, host, layer, entries)
    ensures Walked(tables, host, layer, entries) == W.Walked(Foreseen(tables, layer, entries))
  {
    var owner := Owner(layer, entries - 1);
    assert Holds(tables, owner);
    R.FreeBefore(tables, layer, entries);
    ReplayKeepsOwners(tables, layer, entries - 1);
    ReplayKeepsOwners(tables, layer, entries);
    ReplayKeepsLinks(tables, layer, entries - 1);
    var s := Foreseen(tables, layer, entries - 1);
    assert Walked(tables, host, layer, entries) == W.WalkEntry(s, host, owner, At(tables, owner), false);
    StepIsForeseen(tables, s, host, owner, R.ReplayTo(tables, layer, entries).tree);
    EntryIsWritten(s, host, owner, At(tables, owner));
    OneMoreWritten(tables[layer], entries - 1);
  }

  lemma OneMoreWritten(table: Table, entries: nat)
    requires entries < |table|
    ensures Written(table, entries + 1) == Written(table, entries) +
              if Places(table[entries]) then {table[entries].path} else {}
  {
  }

  ghost predicate AgreementFollows(tables: Tables, host: W.Host, layer: nat, entries: nat)
    requires IsPoint(tables, layer, entries) && PathsNamed(tables)
  {
    && (AgreesUpTo(tables, host, layer, entries) <==> GuardedUpTo(tables, host, layer, entries))
    && (GuardedUpTo(tables, host, layer, entries) ==> InvAt(tables, host, layer, entries))
  }

  lemma FollowsInALayer(tables: Tables, host: W.Host, layer: nat, entries: nat)
    requires AllWellFormed(tables) && PathsNamed(tables) && IsPoint(tables, layer, entries) && entries > 0
    requires R.FreeAt(tables, layer, entries) && AgreementFollows(tables, host, layer, entries - 1)
    ensures AgreementFollows(tables, host, layer, entries)
  {
    if GuardedUpTo(tables, host, layer, entries - 1) {
      OneMoreEntry(tables, host, layer, entries);
    }
  }

  lemma FollowsIntoALayer(tables: Tables, host: W.Host, layer: nat)
    requires PathsNamed(tables) && 0 < layer < |tables|
    requires AgreementFollows(tables, host, layer - 1, |tables[layer - 1]|)
    ensures AgreementFollows(tables, host, layer, 0)
  {
  }

  lemma FollowsFromTheStart(tables: Tables, host: W.Host)
    requires PathsNamed(tables) && tables != []
    ensures AgreementFollows(tables, host, 0, 0)
  {
  }

  lemma {:induction false} FollowsThroughALayer(tables: Tables, host: W.Host, layer: nat, entries: nat)
    requires AllWellFormed(tables) && PathsNamed(tables) && IsPoint(tables, layer, entries)
    requires R.FreeAt(tables, layer, entries) && AgreementFollows(tables, host, layer, 0)
    ensures AgreementFollows(tables, host, layer, entries)
    decreases entries
  {
    if entries > 0 {
      R.FreeBefore(tables, layer, entries);
      FollowsThroughALayer(tables, host, layer, entries - 1);
      FollowsInALayer(tables, host, layer, entries);
    }
  }

  lemma {:induction false} FreeFromTheStart(tables: Tables, layer: nat, entries: nat)
    requires PathsNamed(tables) && IsPoint(tables, layer, entries) && R.FreeAt(tables, layer, entries)
    ensures R.FreeAt(tables, layer, 0)
    decreases entries
  {
    if entries > 0 {
      R.FreeBefore(tables, layer, entries);
      FreeFromTheStart(tables, layer, entries - 1);
    }
  }

  lemma {:induction false} AgreementIsGuarded(tables: Tables, host: W.Host, layer: nat, entries: nat)
    requires AllWellFormed(tables) && PathsNamed(tables) && IsPoint(tables, layer, entries)
    requires R.FreeAt(tables, layer, entries)
    ensures AgreementFollows(tables, host, layer, entries)
    decreases layer
  {
    FreeFromTheStart(tables, layer, entries);
    if layer > 0 {
      R.FreeBefore(tables, layer, 0);
      AgreementIsGuarded(tables, host, layer - 1, |tables[layer - 1]|);
      FollowsIntoALayer(tables, host, layer);
    } else {
      FollowsFromTheStart(tables, host);
    }
    FollowsThroughALayer(tables, host, layer, entries);
  }

  /** Guarded that far, the two still agree. */
  lemma GuardedStillHolds(tables: Tables, host: W.Host, layer: nat, entries: nat)
    requires AllWellFormed(tables) && PathsNamed(tables) && IsPoint(tables, layer, entries)
    requires R.FreeAt(tables, layer, entries) && GuardedUpTo(tables, host, layer, entries)
    ensures InvAt(tables, host, layer, entries)
  {
    AgreementIsGuarded(tables, host, layer, entries);
  }

  ghost predicate Mirrors(tables: Tables, host: W.Host)
    requires PathsNamed(tables) && tables != []
  {
    AgreesUpTo(tables, host, |tables| - 1, |tables[|tables| - 1]|)
  }

  ghost predicate Guarded(tables: Tables, host: W.Host)
    requires PathsNamed(tables) && tables != []
  {
    GuardedUpTo(tables, host, |tables| - 1, |tables[|tables| - 1]|)
  }

  /** For every image whose replay met nothing in the way: the walk places every
      entry without stopping, and after each of them its disk holds exactly the
      paths, kinds and owners of the tree, if and only if the guard held before
      each of them. */
  lemma ReplayMirrorsTheWalk(tables: Tables, host: W.Host)
    requires AllWellFormed(tables) && PathsNamed(tables) && tables != []
    requires R.Replayed(tables).blocked == R.Nothing
    ensures Mirrors(tables, host) <==> Guarded(tables, host)
  {
    AgreementIsGuarded(tables, host, |tables| - 1, |tables[|tables| - 1]|);
  }

  // ------------------------------------------------- following a link

  lemma {:induction false} StraightNamesFollow(disk: W.Disk, host: W.Host, at: Path, rest: Path, links: nat)
    requires PARENT_DIR !in rest
    requires forall k | 1 <= k <= |rest| :: !W.IsLink(disk, at + rest[..k])
    requires W.DiskShape(disk)
    requires rest == [] ==> at == [] || W.IsDirectory(disk, at)
    decreases rest
    ensures W.Follows(disk, host, at, rest, links) <==> at + rest == [] || W.IsDirectory(disk, at + rest)
  {
    if rest == [] {
      assert at + rest == at;
    } else {
      var next := at + [rest[0]];
      assert at + rest[..1] == next;
      assert at + rest == next + rest[1..];
      if W.IsDirectory(disk, next) {
        forall k | 1 <= k <= |rest[1..]| ensures !W.IsLink(disk, next + rest[1..][..k]) {
          assert next + rest[1..][..k] == at + rest[..k + 1];
        }
        StraightNamesFollow(disk, host, next, rest[1..], links);
      } else if rest[1..] != [] {
        assert Under(next, at + rest);
      } else {
        assert at + rest == next;
      }
    }
  }

  /** A relative target with no link on its way, nor at its end, is followed to
      the very path the plan looks up. */
  lemma StraightLinksArePlain(tables: Tables, tree: R.Tree, s: W.State, host: W.Host, layer: nat, path: Path)
    requires Inv(tables, tree, s, layer) && Canonical(path) && R.Named(tree, path, Symlink)
    requires var target := R.LinkOf(tables, tree[path].owner);
             && !R.IsAbsolute(target) && R.PointsAt(path, target).Some?
             && forall k | 1 <= k <= |Components(target)| :: !W.IsLink(s.disk, Parent(path) + Components(target)[..k])
    ensures LinkIsPlain(tables, tree, s.disk, host, path)
  {
    RootEntryIsNotCanonical();
    DiskHasShape(tables, tree, s.disk);
    assert Matches(tables, tree[path], s.disk[path]);
    var target := R.LinkOf(tables, tree[path].owner);
    var at, names := Parent(path), Components(target);
    assert at + [Last(path)] == path;
    assert at != [] ==> R.Named(tree, at, Directory) && W.IsDirectory(s.disk, at) by {
      if at != [] {
        assert Under(at, path);
      }
    }
    assert names + [Last(path)][1..] == names;
    assert W.LeadsToADirectory(s.disk, host, path) == W.Follows(s.disk, host, at, names, W.MAX_LINKS - 1);
    StraightNamesFollow(s.disk, host, at, names, W.MAX_LINKS - 1);
    assert names[..|names|] == names;
    SplitHasNoSlash(target);
    KeptAreNames(Split(target));
    if names == [] {
      assert at + names == at;
    } else {
      assert Last(at + names) == Last(names) != CURRENT_DIR;
    }
    EndPointIsWhatStands(tables, tree, s, layer, at + names);
  }

  lemma EndPointIsWhatStands(tables: Tables, tree: R.Tree, s: W.State, layer: nat, end: Path)
    requires Inv(tables, tree, s, layer) && end != [] && !W.IsLink(s.disk, end) && end != ROOT_ENTRY
    ensures W.IsDirectory(s.disk, end) <==> R.Named(tree, end, Directory)
    ensures end !in tree ==> !R.HoldsAnything(tree, end)
    ensures !R.Named(tree, end, Symlink)
  {
    if end in tree {
      assert Matches(tables, tree[end], s.disk[end]);
    } else {
      NothingUnder(tree, end);
    }
  }
}
