/** Leaving out the bodies later layers replace. */
module Shadow {
  import opened Paths
  import opened Layers
  import opened Simulation
  import opened Mirror
  import opened Owners
  import opened Plain
  import R = Replay
  import W = Walk

  // ------------------------------------------------------------ what is skipped

  /** Some hard link's target, which has to be there when the link is made. */
  predicate Linked(tables: Tables, path: Path) {
    exists l, e | 0 <= l < |tables| && 0 <= e < |tables[l]| ::
      tables[l][e].kind == HardLink && tables[l][e].target == path
  }

  /** What is left at the path came from this layer, whichever of its entries
      placed it. */
  predicate Survives(tree: R.Tree, layer: nat, path: Path) {
    path in tree && tree[path].owner.layer == layer
  }

  predicate IsDoomed(tables: Tables, tree: R.Tree, layer: nat, entry: Entry)
    requires entry.path != []
  {
    && entry.kind.IsFile() && WhiteoutOf(entry.path).None?
    && !Linked(tables, entry.path) && !Survives(tree, layer, entry.path)
  }

  /** The paths of a layer that never have to be written. */
  ghost function Doomed(tables: Tables, tree: R.Tree, layer: nat): set<Path>
    requires layer < |tables| && PathsNamed(tables)
  {
    set e | 0 <= e < |tables[layer]| && EntryIsDoomed(tables, tree, layer, e) :: tables[layer][e].path
  }

  ghost predicate EntryIsDoomed(tables: Tables, tree: R.Tree, layer: nat, e: nat)
    requires layer < |tables| && e < |tables[layer]| && PathsNamed(tables)
  {
    assert Holds(tables, Owner(layer, e));
    IsDoomed(tables, tree, layer, tables[layer][e])
  }

  type Digest = Bytes
  type Shadowed = map<Digest, set<Path>>

  /** The table of what to skip, by digest: a layer with nothing to skip adds
      nothing, and a digest met again is written over. */
  ghost function ShadowTable(tables: Tables, tree: R.Tree, digests: seq<Digest>, layers: nat): Shadowed
    requires layers <= |tables| == |digests| && PathsNamed(tables)
  {
    if layers == 0 then map[]
    else
      var before := ShadowTable(tables, tree, digests, layers - 1);
      var doomed := Doomed(tables, tree, layers - 1);
      if doomed == {} then before else before[digests[layers - 1] := doomed]
  }

  predicate IsShadowed(shadowed: Shadowed, digest: Digest, path: Path) {
    digest in shadowed && path in shadowed[digest]
  }

  /** The pass over every table that fills it in. */
  method FillShadowTable(tables: Tables, tree: R.Tree, digests: seq<Digest>) returns (shadowed: Shadowed)
    requires |tables| == |digests| && PathsNamed(tables)
    ensures shadowed == ShadowTable(tables, tree, digests, |tables|)
  {
    shadowed := map[];
    var l := 0;
    while l < |tables|
      invariant 0 <= l <= |tables|
      invariant shadowed == ShadowTable(tables, tree, digests, l)
    {
      var doomed: set<Path> := {};
      var e := 0;
      while e < |tables[l]|
        invariant 0 <= e <= |tables[l]|
        invariant doomed == set i | 0 <= i < e && EntryIsDoomed(tables, tree, l, i) :: tables[l][i].path
      {
        var entry := tables[l][e];
        assert At(tables, Owner(l, e)) == entry;
        if IsDoomed(tables, tree, l, entry) {
          doomed := doomed + {entry.path};
        }
        e := e + 1;
      }
      assert doomed == Doomed(tables, tree, l);
      if doomed != {} {
        shadowed := shadowed[digests[l] := doomed];
      }
      l := l + 1;
    }
  }

  // ------------------------------------------------------------ the thinner disk

  /** A name the skipping walk never gave its body. */
  predicate IsSkipped(tables: Tables, skips: W.Skips, path: Path, slot: W.Slot) {
    && slot.inode.FileInode? && Holds(tables, slot.placed)
    && At(tables, slot.placed).kind.IsFile() && skips(slot.placed.layer, path)
  }

  function Thin(tables: Tables, skips: W.Skips, disk: W.Disk): W.Disk {
    map p | p in disk && !IsSkipped(tables, skips, p, disk[p]) :: disk[p]
  }

  /** What is skipped is never what a hard link names. */
  ghost predicate SparesLinks(tables: Tables, skips: W.Skips) {
    forall o: Owner, l: nat | Holds(tables, o) && At(tables, o).kind == HardLink :: !skips(l, At(tables, o).target)
  }

  /** Whether something outside the rootfs is a directory does not turn on
      which regular files are inside it. */
  ghost predicate IgnoresFiles(tables: Tables, skips: W.Skips, host: W.Host) {
    forall disk: W.Disk, absolute: bool, rest: Path ::
      host(Thin(tables, skips, disk), absolute, rest) == host(disk, absolute, rest)
  }

  /** Only placing a directory asks what is outside. */
  ghost predicate HasDirectories(tables: Tables) {
    exists o: Owner :: Holds(tables, o) && At(tables, o).kind == Directory
  }

  lemma {:induction false} ThinFollowsAlike(tables: Tables, skips: W.Skips, host: W.Host, disk: W.Disk, at: Path,
                                            rest: Path, links: nat)
    requires IgnoresFiles(tables, skips, host)
    ensures W.Follows(Thin(tables, skips, disk), host, at, rest, links) == W.Follows(disk, host, at, rest, links)
    decreases links, |rest|
  {
    if rest == [] {
    } else if rest[0] == PARENT_DIR {
      if at != [] {
        ThinFollowsAlike(tables, skips, host, disk, Parent(at), rest[1..], links);
      }
    } else {
      var next := at + [rest[0]];
      if next in disk {
        match disk[next].inode
        case DirectoryInode => ThinFollowsAlike(tables, skips, host, disk, next, rest[1..], links);
        case FileInode(_) =>
        case LinkInode(_, target) =>
          if links > 0 {
            ThinFollowsAlike(tables, skips, host, disk, at, Components(target) + rest[1..], links - 1);
          }
      }
    }
  }

  function ThinState(tables: Tables, skips: W.Skips, s: W.State): W.State {
    W.State(Thin(tables, skips, s.disk), s.written)
  }

  lemma ThinParents(tables: Tables, skips: W.Skips, disk: W.Disk, path: Path, owner: Owner)
    requires W.WayTo(disk, path) == W.Clear
    ensures W.MakeParents(Thin(tables, skips, disk), path, owner)
            == Thin(tables, skips, W.MakeParents(disk, path, owner))
  {
  }

  lemma ThinTakes(tables: Tables, skips: W.Skips, disk: W.Disk, path: Path, slot: W.Slot)
    ensures var taken := W.RemoveAny(disk, path)[path := slot];
            && (!IsSkipped(tables, skips, path, slot) ==>
                  W.RemoveAny(Thin(tables, skips, disk), path)[path := slot] == Thin(tables, skips, taken))
            && (IsSkipped(tables, skips, path, slot) ==>
                  W.RemoveAny(Thin(tables, skips, disk), path) == Thin(tables, skips, taken))
  {
  }

  lemma ThinDirectory(tables: Tables, skips: W.Skips, host: W.Host, disk: W.Disk, path: Path, owner: Owner)
    requires path != [] && IgnoresFiles(tables, skips, host)
    ensures W.PlaceDirectory(Thin(tables, skips, disk), host, path, owner) ==
            Thin(tables, skips, W.PlaceDirectory(disk, host, path, owner))
  {
    ThinFollowsAlike(tables, skips, host, disk, Parent(path), [Last(path)], W.MAX_LINKS);
    ThinTakes(tables, skips, disk, path, W.Slot(owner, W.DirectoryInode));
  }

  lemma ThinHardLink(tables: Tables, skips: W.Skips, disk: W.Disk, owner: Owner, entry: Entry)
    requires Holds(tables, owner) && At(tables, owner) == entry && entry.kind == HardLink
    requires SparesLinks(tables, skips)
    requires W.PlaceHardLink(disk, entry.path, entry.target, owner).Some?
    ensures W.PlaceHardLink(Thin(tables, skips, disk), entry.path, entry.target, owner) ==
            Some(Thin(tables, skips, W.PlaceHardLink(disk, entry.path, entry.target, owner).value))
  {
    var path, target := entry.path, entry.target;
    assert target in disk ==> !IsSkipped(tables, skips, target, disk[target]);
    if target != path || path !in disk {
      ThinTakes(tables, skips, disk, path, W.Slot(owner, disk[target].inode));
    }
  }

  lemma ThinPlaced(tables: Tables, skips: W.Skips, host: W.Host, s: W.State, owner: Owner, entry: Entry)
    requires Holds(tables, owner) && At(tables, owner) == entry && entry.path != []
    requires SparesLinks(tables, skips) && (entry.kind == Directory ==> IgnoresFiles(tables, skips, host))
    requires W.PlaceEntry(s, host, owner, entry, false).Walked?
    ensures W.PlaceEntry(ThinState(tables, skips, s), host, owner, entry, skips(owner.layer, entry.path)) ==
            W.Walked(ThinState(tables, skips, W.PlaceEntry(s, host, owner, entry, false).state))
  {
    ThinParents(tables, skips, s.disk, entry.path, owner);
    var disk := W.MakeParents(s.disk, entry.path, owner);
    if entry.kind.IsFile() {
      ThinTakes(tables, skips, disk, entry.path, W.Slot(owner, W.FileInode(owner)));
    } else if entry.kind == Directory {
      ThinDirectory(tables, skips, host, disk, entry.path, owner);
    } else if entry.kind == HardLink {
      ThinHardLink(tables, skips, disk, owner, entry);
    } else {
      ThinTakes(tables, skips, disk, entry.path, W.Slot(owner, W.LinkInode(owner, entry.link)));
    }
  }

  lemma ThinEntry(tables: Tables, skips: W.Skips, host: W.Host, s: W.State, owner: Owner, entry: Entry)
    requires Holds(tables, owner) && At(tables, owner) == entry && entry.path != []
    requires SparesLinks(tables, skips) && (entry.kind == Directory ==> IgnoresFiles(tables, skips, host))
    requires W.WalkEntry(s, host, owner, entry, false).Walked?
    ensures W.WalkEntry(ThinState(tables, skips, s), host, owner, entry, skips(owner.layer, entry.path)) ==
            W.Walked(ThinState(tables, skips, W.WalkEntry(s, host, owner, entry, false).state))
  {
    if entry.path != ROOT_ENTRY {
      match WhiteoutOf(entry.path)
      case Some(Opaque(dir)) =>
      case Some(Named(target)) =>
      case Some(Invalid) =>
      case None =>
        if entry.kind != Unsupported {
          ThinPlaced(tables, skips, host, s, owner, entry);
        }
    }
  }

  // ------------------------------------------------------------ whole images

  /** The skipping walk stays the full walk less what it skips, at every point
      the full walk reaches. */
  lemma {:induction false} SkippingThins(tables: Tables, skips: W.Skips, host: W.Host, layer: nat, entries: nat)
    requires IsPoint(tables, layer, entries) && PathsNamed(tables)
    requires SparesLinks(tables, skips) && (HasDirectories(tables) ==> IgnoresFiles(tables, skips, host))
    requires Walked(tables, host, layer, entries).Walked?
    ensures W.WalkTo(tables, host, skips, layer, entries) ==
            W.Walked(ThinState(tables, skips, Walked(tables, host, layer, entries).state))
    decreases layer, entries
  {
    if entries > 0 {
      var owner := Owner(layer, entries - 1);
      assert Holds(tables, owner);
      SkippingThins(tables, skips, host, layer, entries - 1);
      ThinEntry(tables, skips, host, Walked(tables, host, layer, entries - 1).state, owner, At(tables, owner));
    } else if layer > 0 {
      SkippingThins(tables, skips, host, layer - 1, |tables[layer - 1]|);
    }
  }

  /** The last of the first layers with a digest to have anything to skip. */
  ghost predicate HasTheLastWord(tables: Tables, tree: R.Tree, digests: seq<Digest>, layers: nat, l: nat)
    requires l < layers <= |tables| == |digests| && PathsNamed(tables)
  {
    && Doomed(tables, tree, l) != {}
    && forall k | l < k < layers && digests[k] == digests[l] :: Doomed(tables, tree, k) == {}
  }

  /** What is skipped under a digest is what the last layer with anything to say
      under it dooms. */
  lemma {:induction false} TheLastWordIsKept(tables: Tables, tree: R.Tree, digests: seq<Digest>, layers: nat,
                                             digest: Digest, path: Path)
    requires layers <= |tables| == |digests| && PathsNamed(tables)
    ensures IsShadowed(ShadowTable(tables, tree, digests, layers), digest, path) <==>
            exists l | 0 <= l < layers :: digests[l] == digest && HasTheLastWord(tables, tree, digests, layers, l)
                                          && path in Doomed(tables, tree, l)
  {
    if layers > 0 {
      var last := layers - 1;
      TheLastWordIsKept(tables, tree, digests, last, digest, path);
      if digests[last] == digest && Doomed(tables, tree, last) != {} {
        assert HasTheLastWord(tables, tree, digests, layers, last);
      } else {
        forall l | 0 <= l < last && digests[l] == digest
          ensures HasTheLastWord(tables, tree, digests, layers, l) <==> HasTheLastWord(tables, tree, digests, last, l)
        {
        }
      }
    }
  }

  /** What the plan tells the walk to skip. */
  ghost predicate SkipsShadowed(tables: Tables, tree: R.Tree, digests: seq<Digest>, skips: W.Skips)
    requires |tables| == |digests| && PathsNamed(tables)
  {
    forall l: nat, p: Path :: skips(l, p) <==>
      l < |tables| && IsShadowed(ShadowTable(tables, tree, digests, |tables|), digests[l], p)
  }

  lemma ShadowedIsUnlinked(tables: Tables, tree: R.Tree, digests: seq<Digest>, skips: W.Skips)
    requires |tables| == |digests| && PathsNamed(tables) && SkipsShadowed(tables, tree, digests, skips)
    ensures SparesLinks(tables, skips)
  {
    forall o: Owner, l: nat | Holds(tables, o) && At(tables, o).kind == HardLink
      ensures !skips(l, At(tables, o).target)
    {
      var target := At(tables, o).target;
      assert tables[o.layer][o.entry].kind == HardLink;
      assert Linked(tables, target);
      if skips(l, target) {
        TheLastWordIsKept(tables, tree, digests, |tables|, digests[l], target);
        assert false;
      }
    }
  }

  /** The last layer to have anything to skip under the digest of the layer a path
      survives from dooms that path. It is another layer: none dooms what survives
      from it. */
  ghost predicate IsDoomedUnderItsDigest(tables: Tables, tree: R.Tree, digests: seq<Digest>, p: Path)
    requires |tables| == |digests| && PathsNamed(tables) && p in tree
  {
    tree[p].owner.layer < |tables| &&
    exists l | 0 <= l < |tables| ::
      && digests[l] == digests[tree[p].owner.layer]
      && HasTheLastWord(tables, tree, digests, |tables|, l) && p in Doomed(tables, tree, l)
  }

  /** No file the image ends up with is. */
  ghost predicate SurvivorsAreWritten(tables: Tables, tree: R.Tree, digests: seq<Digest>)
    requires |tables| == |digests| && PathsNamed(tables)
  {
    forall p | p in tree && tree[p].kind.IsFile() :: !IsDoomedUnderItsDigest(tables, tree, digests, p)
  }

  lemma SkippedSurvivors(tables: Tables, tree: R.Tree, digests: seq<Digest>, skips: W.Skips, p: Path)
    requires |tables| == |digests| && PathsNamed(tables) && SkipsShadowed(tables, tree, digests, skips)
    requires p in tree && tree[p].owner.layer < |tables|
    ensures skips(tree[p].owner.layer, p) <==> IsDoomedUnderItsDigest(tables, tree, digests, p)
  {
    TheLastWordIsKept(tables, tree, digests, |tables|, digests[tree[p].owner.layer], p);
  }

  /** A surviving file is skipped just when its layer's digest says so. */
  lemma SurvivorIsSkipped(tables: Tables, tree: R.Tree, skips: W.Skips, disk: W.Disk, p: Path)
    requires OwnersMatch(tables, tree) && Agrees(tables, tree, disk) && p in disk
    ensures IsSkipped(tables, skips, p, disk[p]) <==> tree[p].kind.IsFile() && skips(tree[p].owner.layer, p)
  {
    assert Matches(tables, tree[p], disk[p]) && Owned(tables, p, tree[p]);
  }

  lemma ThinIsAll(tables: Tables, skips: W.Skips, disk: W.Disk)
    ensures Thin(tables, skips, disk) == disk <==> forall p | p in disk :: !IsSkipped(tables, skips, p, disk[p])
  {
    if Thin(tables, skips, disk) == disk {
      forall p | p in disk ensures !IsSkipped(tables, skips, p, disk[p]) {
        assert p in Thin(tables, skips, disk);
      }
    }
  }

  lemma ThinningIsNothing(tables: Tables, tree: R.Tree, digests: seq<Digest>, skips: W.Skips, disk: W.Disk)
    requires |tables| == |digests| && PathsNamed(tables) && SkipsShadowed(tables, tree, digests, skips)
    requires OwnersMatch(tables, tree) && Agrees(tables, tree, disk)
    ensures Thin(tables, skips, disk) == disk <==> SurvivorsAreWritten(tables, tree, digests)
  {
    RootEntryIsNotCanonical();
    forall p | p in disk
      ensures IsSkipped(tables, skips, p, disk[p])
         <==> tree[p].kind.IsFile() && IsDoomedUnderItsDigest(tables, tree, digests, p)
    {
      SurvivorIsSkipped(tables, tree, skips, disk, p);
      assert Owned(tables, p, tree[p]);
      SkippedSurvivors(tables, tree, digests, skips, p);
    }
    ThinIsAll(tables, skips, disk);
    forall p | p in tree && tree[p].kind.IsFile() ensures p in disk {
      assert Owned(tables, p, tree[p]);
    }
  }

  ghost function FinalWalk(tables: Tables, host: W.Host, skips: W.Skips): W.Outcome
    requires tables != [] && PathsNamed(tables)
  {
    W.WalkTo(tables, host, skips, |tables| - 1, |tables[|tables| - 1]|)
  }

  lemma WalkAgreesAtItsEnd(tables: Tables, host: W.Host)
    requires AllWellFormed(tables) && PathsNamed(tables) && tables != []
    requires R.Replayed(tables).blocked == R.Nothing && Guarded(tables, host)
    ensures var all := FinalWalk(tables, host, W.PLACE_ALL);
            all.Walked? && Agrees(tables, R.Replayed(tables).tree, all.state.disk)
  {
    ReplayMirrorsTheWalk(tables, host);
    assert AgreesAt(tables, host, |tables| - 1, |tables[|tables| - 1]|);
  }

  /** At its end the skipping walk has the full walk's disk, thinned. */
  lemma WalksThin(tables: Tables, host: W.Host, digests: seq<Digest>, skips: W.Skips)
    requires AllWellFormed(tables) && PathsNamed(tables) && tables != [] && |digests| == |tables|
    requires R.Replayed(tables).blocked == R.Nothing && Guarded(tables, host)
    requires SkipsShadowed(tables, R.Replayed(tables).tree, digests, skips)
    requires HasDirectories(tables) ==> IgnoresFiles(tables, skips, host)
    ensures FinalWalk(tables, host, skips).Walked? && FinalWalk(tables, host, W.PLACE_ALL).Walked?
    ensures var all := FinalWalk(tables, host, W.PLACE_ALL).state.disk;
            && Agrees(tables, R.Replayed(tables).tree, all)
            && FinalWalk(tables, host, skips).state.disk == Thin(tables, skips, all)
  {
    WalkAgreesAtItsEnd(tables, host);
    ShadowedIsUnlinked(tables, R.Replayed(tables).tree, digests, skips);
    SkippingThins(tables, skips, host, |tables| - 1, |tables[|tables| - 1]|);
  }

  /** The walk that leaves out every shadowed body places the same image as the
      walk that writes them all, if and only if no surviving file is shadowed
      under its own layer's digest. */
  lemma SkippingIsHarmless(tables: Tables, host: W.Host, digests: seq<Digest>, skips: W.Skips)
    requires AllWellFormed(tables) && PathsNamed(tables) && tables != [] && |digests| == |tables|
    requires R.Replayed(tables).blocked == R.Nothing && Guarded(tables, host)
    requires SkipsShadowed(tables, R.Replayed(tables).tree, digests, skips)
    requires HasDirectories(tables) ==> IgnoresFiles(tables, skips, host)
    ensures FinalWalk(tables, host, skips).Walked? && FinalWalk(tables, host, W.PLACE_ALL).Walked?
    ensures FinalWalk(tables, host, skips).state.disk == FinalWalk(tables, host, W.PLACE_ALL).state.disk
            <==> SurvivorsAreWritten(tables, R.Replayed(tables).tree, digests)
  {
    var tree := R.Replayed(tables).tree;
    WalksThin(tables, host, digests, skips);
    ReplayedIsOwned(tables);
    ThinningIsNothing(tables, tree, digests, skips, FinalWalk(tables, host, W.PLACE_ALL).state.disk);
  }

  /** Which it is wherever every layer has a digest of its own. */
  lemma DistinctDigestsSkipSafely(tables: Tables, tree: R.Tree, digests: seq<Digest>)
    requires |tables| == |digests| && PathsNamed(tables)
    requires forall i, j | 0 <= i < j < |digests| :: digests[i] != digests[j]
    ensures SurvivorsAreWritten(tables, tree, digests)
  {
    forall p, l | p in tree && tree[p].owner.layer < |tables| && 0 <= l < |tables| &&
                  digests[l] == digests[tree[p].owner.layer]
      ensures p !in Doomed(tables, tree, l)
    {
      assert l == tree[p].owner.layer && Survives(tree, l, p);
    }
  }

  /** And then nothing more could be skipped: the walk writes a file only when its
      path still leads to its layer in the end or some hard link is to find it. */
  lemma DistinctDigestsSkipAll(tables: Tables, tree: R.Tree, digests: seq<Digest>, skips: W.Skips, o: Owner)
    requires |tables| == |digests| && PathsNamed(tables) && SkipsShadowed(tables, tree, digests, skips)
    requires forall i, j | 0 <= i < j < |digests| :: digests[i] != digests[j]
    requires Holds(tables, o) && At(tables, o).kind.IsFile() && WhiteoutOf(At(tables, o).path).None?
    ensures var path := At(tables, o).path;
            skips(o.layer, path) <==>
              && (forall h: Owner | Holds(tables, h) && At(tables, h).kind == HardLink :: At(tables, h).target != path)
              && !(path in tree && tree[path].owner.layer == o.layer)
  {
    var path := At(tables, o).path;
    TheLastWordIsKept(tables, tree, digests, |tables|, digests[o.layer], path);
    assert Linked(tables, path) <==>
             exists h: Owner | Holds(tables, h) :: At(tables, h).kind == HardLink && At(tables, h).target == path by {
      if Linked(tables, path) {
        var l, e :| && 0 <= l < |tables| && 0 <= e < |tables[l]|
                    && tables[l][e].kind == HardLink && tables[l][e].target == path;
        assert Holds(tables, Owner(l, e));
      }
    }
    if EntryIsDoomed(tables, tree, o.layer, o.entry) {
      assert path in Doomed(tables, tree, o.layer);
      assert HasTheLastWord(tables, tree, digests, |tables|, o.layer);
    }
  }

  /** A plain image whose layers have digests of their own: the walk that skips
      what later layers replace places all of it. */
  lemma PlainImagesSkipSafely(tables: Tables, host: W.Host, digests: seq<Digest>, skips: W.Skips)
    requires AllWellFormed(tables) && PathsNamed(tables) && tables != [] && |digests| == |tables|
    requires R.Replayed(tables).blocked == R.Nothing && PlainImage(tables)
    requires forall i, j | 0 <= i < j < |digests| :: digests[i] != digests[j]
    requires SkipsShadowed(tables, R.Replayed(tables).tree, digests, skips)
    requires HasDirectories(tables) ==> IgnoresFiles(tables, skips, host)
    ensures FinalWalk(tables, host, skips).Walked? && FinalWalk(tables, host, W.PLACE_ALL).Walked?
    ensures FinalWalk(tables, host, skips).state.disk == FinalWalk(tables, host, W.PLACE_ALL).state.disk
  {
    PlainImagesMirror(tables, host);
    DistinctDigestsSkipSafely(tables, R.Replayed(tables).tree, digests);
    SkippingIsHarmless(tables, host, digests, skips);
  }

  /** An image holding one layer twice: its file survives from the second copy
      and is skipped for the first, under the digest they share. */
  function Twice(name: Name, other: Name): Tables {
    var layer := [Entry(File, [other], [], [], 0, 0), Entry(File, [name], [], [], 0, 0)];
    [layer, layer]
  }

  lemma LayerReplays(tables: Tables, layer: nat, name: Name, other: Name)
    requires PathsNamed(tables) && tables == Twice(name, other) && layer < 2
    requires WhiteoutOf([name]).None? && WhiteoutOf([other]).None? && name != other
    requires var s := R.ReplayTo(tables, layer, 0);
             && s.blocked == R.Nothing
             && ([name] in s.tree ==> s.tree[[name]].kind == File)
             && ([other] in s.tree ==> s.tree[[other]].kind == File)
    ensures var after := R.ReplayTo(tables, layer, 2);
            && after.blocked == R.Nothing
            && R.Named(after.tree, [name], File) && after.tree[[name]].owner.layer == layer
            && R.Named(after.tree, [other], File) && after.tree[[other]].owner.layer == layer
  {
  }

  lemma TwiceIsReplayed(tables: Tables, name: Name, other: Name)
    requires PathsNamed(tables) && tables == Twice(name, other)
    requires WhiteoutOf([name]).None? && WhiteoutOf([other]).None? && name != other
    ensures R.Replayed(tables).blocked == R.Nothing
    ensures R.Named(R.Replayed(tables).tree, [name], File) && R.Replayed(tables).tree[[name]].owner.layer == 1
    ensures R.Named(R.Replayed(tables).tree, [other], File) && R.Replayed(tables).tree[[other]].owner.layer == 1
  {
    LayerReplays(tables, 0, name, other);
    assert R.ReplayTo(tables, 1, 0) == R.ReplayTo(tables, 0, 2);
    LayerReplays(tables, 1, name, other);
  }

  lemma TwiceIsShadowed(tables: Tables, tree: R.Tree, name: Name, other: Name)
    requires PathsNamed(tables) && tables == Twice(name, other) && WhiteoutOf([name]).None?
    requires R.Named(tree, [name], File) && tree[[name]].owner.layer == 1
    requires R.Named(tree, [other], File) && tree[[other]].owner.layer == 1
    ensures [name] in Doomed(tables, tree, 0) && Doomed(tables, tree, 1) == {}
  {
    assert !Linked(tables, [name]);
    assert tables[0][1].path == [name] && EntryIsDoomed(tables, tree, 0, 1);
    forall e | 0 <= e < |tables[1]| ensures !EntryIsDoomed(tables, tree, 1, e) {
    }
  }

  lemma TwiceIsPlain(tables: Tables, name: Name, other: Name)
    requires tables == Twice(name, other)
    requires Ordinary(name) && Ordinary(other) && WhiteoutOf([name]).None? && WhiteoutOf([other]).None?
    ensures AllWellFormed(tables) && PlainImage(tables) && !HasDirectories(tables)
  {
    assert forall o: Owner | Holds(tables, o) :: At(tables, o) == tables[0][0] || At(tables, o) == tables[0][1];
    assert Canonical([name]) && Canonical([other]);
    assert PlainLayer(tables[0]) && PlainLayer(tables[1]);
  }

  /** A surviving file doomed so is there when every body is written, and gone
      when what is shadowed is not. */
  lemma DoomedSurvivorIsLost(tables: Tables, host: W.Host, digests: seq<Digest>, skips: W.Skips, p: Path)
    requires AllWellFormed(tables) && PathsNamed(tables) && tables != [] && |digests| == |tables|
    requires R.Replayed(tables).blocked == R.Nothing && Guarded(tables, host)
    requires SkipsShadowed(tables, R.Replayed(tables).tree, digests, skips)
    requires HasDirectories(tables) ==> IgnoresFiles(tables, skips, host)
    requires var tree := R.Replayed(tables).tree;
             p in tree && tree[p].kind.IsFile() && IsDoomedUnderItsDigest(tables, tree, digests, p)
    ensures var all, some := FinalWalk(tables, host, W.PLACE_ALL), FinalWalk(tables, host, skips);
            all.Walked? && some.Walked? && p in all.state.disk && p !in some.state.disk
  {
    var tree := R.Replayed(tables).tree;
    WalksThin(tables, host, digests, skips);
    ReplayedIsOwned(tables);
    RootEntryIsNotCanonical();
    assert Owned(tables, p, tree[p]);
    SkippedSurvivors(tables, tree, digests, skips, p);
    SurvivorIsSkipped(tables, tree, skips, FinalWalk(tables, host, W.PLACE_ALL).state.disk, p);
  }

  /** For any two names that are no markers, so is the file the second copy
      places. */
  lemma SharedDigestLosesTheFile(
      tables: Tables, host: W.Host, digests: seq<Digest>, name: Name, other: Name, skips: W.Skips)
    requires tables == Twice(name, other) && Ordinary(name) && Ordinary(other) && name != other
    requires WhiteoutOf([name]).None? && WhiteoutOf([other]).None?
    requires |digests| == 2 && digests[0] == digests[1] && PathsNamed(tables)
    requires SkipsShadowed(tables, R.Replayed(tables).tree, digests, skips)
    ensures var all, some := FinalWalk(tables, host, W.PLACE_ALL), FinalWalk(tables, host, skips);
            all.Walked? && some.Walked? && [name] in all.state.disk && [name] !in some.state.disk
  {
    TwiceIsPlain(tables, name, other);
    TwiceIsReplayed(tables, name, other);
    TwiceIsShadowed(tables, R.Replayed(tables).tree, name, other);
    PlainImagesMirror(tables, host);
    FirstHasTheLastWord(tables, R.Replayed(tables).tree, digests, [name]);
    DoomedSurvivorIsLost(tables, host, digests, skips, [name]);
  }

  lemma FirstHasTheLastWord(tables: Tables, tree: R.Tree, digests: seq<Digest>, p: Path)
    requires |tables| == |digests| == 2 && digests[0] == digests[1] && PathsNamed(tables)
    requires p in Doomed(tables, tree, 0) && Doomed(tables, tree, 1) == {}
    requires p in tree && tree[p].owner.layer == 1
    ensures IsDoomedUnderItsDigest(tables, tree, digests, p)
  {
    assert HasTheLastWord(tables, tree, digests, 2, 0);
  }
}
