/** Images that mean the same to the plan and to the walk, told from their tables
    alone. */
module Plain {
  import opened Paths
  import opened Layers
  import opened History
  import opened Links
  import opened Owners
  import opened Simulation
  import opened Mirror
  import R = Replay
  import W = Walk

  // ------------------------------------------------------------ the conditions

  /** A later entry of the layer clears away what holds an earlier one. */
  predicate TakesAbove(later: Entry, earlier: Entry) {
    && Places(earlier) && later.path != []
    && match WhiteoutOf(later.path)
       case Some(Named(target)) => Under(target, earlier.path)
       case Some(_) => false
       case None => later.kind != Directory && later.kind != Unsupported && Under(later.path, earlier.path)
  }

  predicate KeepsWhatItPlaces(table: Table) {
    forall i, j | 0 <= i < j < |table| :: !TakesAbove(table[j], table[i])
  }

  /** What the first `m` entries place in a directory they do not name sorts away
      from it: another of their paths comes in between. */
  ghost predicate SortsAway(table: Table, m: nat, p: Path, i: nat, j: nat)
    requires m <= |table|
  {
    && i < m && j < m && Places(table[i]) && Places(table[j]) && p !in Written(table, m)
    && Under(p, table[i].path) && !Under(p, table[j].path)
    && Before(p, table[j].path) && Before(table[j].path, table[i].path)
  }

  ghost predicate KeepsTogether(table: Table) {
    forall m | 0 <= m < |table| && table[m].path != [] && WhiteoutOf(table[m].path).Some? &&
               WhiteoutOf(table[m].path).value.Opaque? ::
      StaysTogether(table, m, WhiteoutOf(table[m].path).value.dir)
  }

  ghost predicate StaysTogether(table: Table, m: nat, dir: Path)
    requires m <= |table|
  {
    forall p, i, j :: Under(dir, p) ==> !SortsAway(table, m, p, i, j)
  }

  predicate MarkersAreOrdinary(table: Table) {
    forall m | 0 <= m < |table| && table[m].path != [] ::
      match WhiteoutOf(table[m].path)
      case Some(Named(target)) => target != [] && Ordinary(Last(target))
      case _ => true
  }

  /** An entry that can leave a symlink at its path: one, or a hard link to what
      an earlier entry that can left at its target. */
  ghost predicate MayBeALink(tables: Tables, o: Owner)
    requires Holds(tables, o)
    decreases o.layer, o.entry
  {
    || At(tables, o).kind == Symlink
    || (At(tables, o).kind == HardLink
        && exists t: Owner | Holds(tables, t) && t.Precedes(o) && At(tables, t).path == At(tables, o).target ::
             MayBeALink(tables, t))
  }

  ghost predicate NoLinkStands(tables: Tables, path: Path, until: Owner) {
    forall t: Owner | Holds(tables, t) && t.Precedes(until) && At(tables, t).path == path :: !MayBeALink(tables, t)
  }

  /** A symlink with a relative target under the rootfs, and no link on the way
      to it or at its end. */
  ghost predicate LeadsStraight(tables: Tables, o: Owner, until: Owner)
    requires Holds(tables, o)
  {
    var entry := At(tables, o);
    && entry.kind == Symlink && entry.path != [] && !R.IsAbsolute(entry.link)
    && R.PointsAt(entry.path, entry.link).Some?
    && forall k | 1 <= k <= |Components(entry.link)| ::
         NoLinkStands(tables, Parent(entry.path) + Components(entry.link)[..k], until)
  }

  /** Every link a directory entry can meet leads straight. */
  ghost predicate LinksLeadStraight(tables: Tables) {
    forall d: Owner, o: Owner | Holds(tables, d) && Holds(tables, o) && o.Precedes(d)
                             && Places(At(tables, d)) && At(tables, d).kind == Directory
                             && At(tables, o).path == At(tables, d).path && MayBeALink(tables, o) ::
      LeadsStraight(tables, o, d)
  }

  ghost predicate PlainLayer(table: Table) {
    KeepsWhatItPlaces(table) && KeepsTogether(table) && MarkersAreOrdinary(table)
  }

  ghost predicate PlainImage(tables: Tables) {
    (forall l | 0 <= l < |tables| :: PlainLayer(tables[l])) && LinksLeadStraight(tables)
  }

  // ------------------------------------------------------------ staying together

  lemma {:induction false} BetweenPrefixAndPrefixed(prefix: Bytes, x: Bytes, s: Bytes)
    requires StartsWith(s, prefix + [SLASH]) && Less(prefix, x) && Less(x, s)
    ensures StartsWith(x, prefix) && |x| > |prefix| && x[|prefix|] <= SLASH
  {
    assert (prefix + [SLASH])[0] == s[0];
    if prefix != [] {
      assert (prefix + [SLASH])[1..] == prefix[1..] + [SLASH];
      assert s[1..][..|prefix|] == s[..|prefix| + 1][1..];
      BetweenPrefixAndPrefixed(prefix[1..], x[1..], s[1..]);
      assert x[..|prefix|] == [x[0]] + x[1..][..|prefix| - 1];
      assert prefix == [prefix[0]] + prefix[1..];
    }
  }

  /** What comes between a directory and its contents is a name going on where
      the directory's stops, with a byte below the slash. */
  lemma ComingBetweenTakesALowByte(p: Path, q: Path, r: Path)
    requires Plain(p) && Plain(r) && Under(p, q) && !Under(p, r) && Before(p, r) && Before(r, q)
    ensures StartsWith(Spell(r), Spell(p)) && |Spell(r)| > |Spell(p)| && Spell(r)[|Spell(p)|] < SLASH
  {
    SpellUnder(p, q);
    BetweenPrefixAndPrefixed(Spell(p), Spell(r), Spell(q));
    if Spell(r)[|Spell(p)|] == SLASH {
      assert Spell(r)[..|Spell(p)| + 1] == Spell(p) + [SLASH];
      StartsWithNameAndSlash(p, r);
      assert false;
    }
  }

  /** No name holds a byte that sorts below the slash. */
  predicate SortsAboveSlash(path: Path) {
    forall i, j | 0 <= i < |path| && 0 <= j < |path[i]| :: path[i][j] > SLASH
  }

  lemma {:induction false} LowBytesAreSlashes(path: Path, at: nat)
    requires SortsAboveSlash(path) && at < |Spell(path)|
    ensures Spell(path)[at] >= SLASH
  {
    if |path| > 1 && at > |path[0]| {
      forall i, j | 0 <= i < |path[1..]| && 0 <= j < |path[1..][i]| ensures path[1..][i][j] > SLASH {
        assert path[1..][i] == path[i + 1];
      }
      LowBytesAreSlashes(path[1..], at - |path[0]| - 1);
    }
  }

  /** A layer none of whose names holds a byte below the slash keeps together. */
  lemma HighBytesKeepTogether(table: Table)
    requires forall e | 0 <= e < |table| :: WellFormed(table[e])
    requires forall e | 0 <= e < |table| && Places(table[e]) :: SortsAboveSlash(table[e].path)
    ensures KeepsTogether(table)
  {
    forall m: nat, dir: Path, p: Path, i: nat, j: nat | m <= |table| && Under(dir, p)
      ensures !SortsAway(table, m, p, i, j)
    {
      if SortsAway(table, m, p, i, j) {
        var q, r := table[i].path, table[j].path;
        CanonicalIsPlain(q);
        CanonicalIsPlain(r);
        assert forall k | 0 <= k < |p| :: p[k] == q[k];
        ComingBetweenTakesALowByte(p, q, r);
        LowBytesAreSlashes(r, |Spell(p)|);
        assert false;
      }
    }
  }

  /** So does one that names each directory before it puts something in it. */
  lemma NamedDirectoriesKeepTogether(table: Table)
    requires forall e, a | 0 <= e < |table| && Places(table[e]) && a != [] && Under(a, table[e].path) ::
               a in Written(table, e)
    ensures KeepsTogether(table)
  {
    forall m: nat, dir: Path, p: Path, i: nat, j: nat | m <= |table| && Under(dir, p)
      ensures !SortsAway(table, m, p, i, j)
    {
      if i < m && Places(table[i]) && Under(p, table[i].path) {
        assert p in Written(table, i);
      }
    }
  }

  // ------------------------------------------------------------ what a layer names

  /** The layer still names everything it has placed, and nothing else under the
      rootfs. */
  ghost predicate NamesWhatItWrote(tree: R.Tree, layer: nat, written: set<Path>) {
    && (forall p | p in written :: p in tree && tree[p].namedBy == Some(layer))
    && (forall p | p in tree && tree[p].namedBy.Some? :: tree[p].namedBy.value <= layer)
    && (forall p | p in tree && tree[p].namedBy == Some(layer) && p != ROOT_ENTRY :: p in written)
  }

  ghost predicate NamesAt(tables: Tables, layer: nat, entries: nat)
    requires PathsNamed(tables) && IsPoint(tables, layer, entries)
  {
    NamesWhatItWrote(R.ReplayTo(tables, layer, entries).tree, layer, Written(tables[layer], entries))
  }

  /** An entry that clears away nothing above what the layer has placed. */
  predicate SparesWritten(entry: Entry, written: set<Path>) {
    && entry.path != []
    && match WhiteoutOf(entry.path)
       case Some(Named(target)) => forall p | p in written :: !Under(target, p)
       case Some(_) => true
       case None =>
         entry.kind != Directory && entry.kind != Unsupported ==> forall p | p in written :: !Under(entry.path, p)
  }

  lemma EntrySpares(table: Table, e: nat)
    requires KeepsWhatItPlaces(table) && e < |table| && table[e].path != []
    ensures SparesWritten(table[e], Written(table, e))
  {
    forall p | p in Written(table, e) ensures exists i :: 0 <= i < e && Places(table[i]) && table[i].path == p &&
                                                          !TakesAbove(table[e], table[i]) {
    }
  }

  lemma MarkerKeepsNames(tables: Tables, tree: R.Tree, owner: Owner, entry: Entry, written: set<Path>)
    requires NamesWhatItWrote(tree, owner.layer, written) && SparesWritten(entry, written)
    requires WhiteoutOf(entry.path).Some? && !WhiteoutOf(entry.path).value.Invalid?
    ensures NamesWhatItWrote(R.ReplayEntry(R.State(tree, R.Nothing), tables, owner, entry).tree, owner.layer, written)
  {
  }

  lemma DirectoryKeepsNames(tables: Tables, tree: R.Tree, owner: Owner, entry: Entry, written: set<Path>)
    requires NamesWhatItWrote(tree, owner.layer, written) && WellFormed(entry)
    requires WhiteoutOf(entry.path).None? && entry.kind == Directory
    ensures NamesWhatItWrote(R.PlaceEntry(R.State(tree, R.Nothing), tables, owner, entry).tree, owner.layer,
                             written + if Places(entry) then {entry.path} else {})
  {
  }

  lemma PlacingKeepsNames(tables: Tables, tree: R.Tree, owner: Owner, entry: Entry, written: set<Path>)
    requires NamesWhatItWrote(tree, owner.layer, written) && SparesWritten(entry, written) && entry.kind != Directory
    requires WhiteoutOf(entry.path).None? && WellFormed(entry) && R.LinksSomewhere(tree, tables, entry) == R.Nothing
    ensures NamesWhatItWrote(R.PlaceEntry(R.State(tree, R.Nothing), tables, owner, entry).tree, owner.layer,
                             written + if Places(entry) then {entry.path} else {})
  {
  }

  lemma EntryKeepsNames(tables: Tables, tree: R.Tree, owner: Owner, entry: Entry, written: set<Path>)
    requires NamesWhatItWrote(tree, owner.layer, written) && SparesWritten(entry, written) && WellFormed(entry)
    requires R.ReplayEntry(R.State(tree, R.Nothing), tables, owner, entry).blocked == R.Nothing
    ensures NamesWhatItWrote(R.ReplayEntry(R.State(tree, R.Nothing), tables, owner, entry).tree, owner.layer,
                             written + if Places(entry) then {entry.path} else {})
  {
    if WhiteoutOf(entry.path).Some? {
      RootEntryIsNotCanonical();
      MarkerKeepsNames(tables, tree, owner, entry, written);
    } else if entry.kind == Directory {
      DirectoryKeepsNames(tables, tree, owner, entry, written);
    } else {
      PlacingKeepsNames(tables, tree, owner, entry, written);
    }
  }

  lemma NamesAfterAnEntry(tables: Tables, layer: nat, entries: nat)
    requires AllWellFormed(tables) && PathsNamed(tables) && IsPoint(tables, layer, entries) && entries > 0
    requires R.FreeAt(tables, layer, entries) && NamesAt(tables, layer, entries - 1)
    requires KeepsWhatItPlaces(tables[layer])
    ensures NamesAt(tables, layer, entries)
  {
    var owner := Owner(layer, entries - 1);
    assert Holds(tables, owner) && WellFormed(At(tables, owner));
    R.FreeBefore(tables, layer, entries);
    var before := R.ReplayTo(tables, layer, entries - 1);
    assert before == R.State(before.tree, R.Nothing);
    assert R.ReplayTo(tables, layer, entries) == R.ReplayEntry(before, tables, owner, At(tables, owner));
    EntrySpares(tables[layer], entries - 1);
    EntryKeepsNames(tables, before.tree, owner, At(tables, owner), Written(tables[layer], entries - 1));
    OneMoreWritten(tables[layer], entries - 1);
  }

  lemma NamesAfterALayer(tables: Tables, layer: nat)
    requires PathsNamed(tables) && 0 < layer < |tables| && NamesAt(tables, layer - 1, |tables[layer - 1]|)
    ensures NamesAt(tables, layer, 0)
  {
    assert R.ReplayTo(tables, layer, 0) == R.ReplayTo(tables, layer - 1, |tables[layer - 1]|);
  }

  /** A layer that clears away nothing above what it has placed still names all
      of it, at every point. */
  lemma {:induction false} LayersNameWhatTheyWrite(tables: Tables, layer: nat, entries: nat)
    requires AllWellFormed(tables) && PathsNamed(tables) && IsPoint(tables, layer, entries)
    requires R.FreeAt(tables, layer, entries) && forall l | 0 <= l < |tables| :: KeepsWhatItPlaces(tables[l])
    ensures NamesAt(tables, layer, entries)
    decreases layer, entries
  {
    R.FreeBefore(tables, layer, entries);
    if entries > 0 {
      LayersNameWhatTheyWrite(tables, layer, entries - 1);
      NamesAfterAnEntry(tables, layer, entries);
    } else if layer > 0 {
      LayersNameWhatTheyWrite(tables, layer - 1, |tables[layer - 1]|);
      NamesAfterALayer(tables, layer);
    }
  }

  // ------------------------------------------------------------ what that gives the guards

  lemma WrittenIsNotStale(tree: R.Tree, written: set<Path>, dir: Path, layer: nat)
    requires NamesWhatItWrote(tree, layer, written) && ROOT_ENTRY !in written
    ensures NothingStale(tree, written, dir, layer)
  {
    forall p ensures !IsStale(tree, written, dir, layer, p) {
      if IsStale(tree, written, dir, layer, p) && p !in written {
        var q :| q in written && Under(p, q);
        UnderIsTransitive(dir, p, q);
        assert R.IsOurs(tree, dir, layer, q);
        assert false;
      }
    }
  }

  lemma TogetherNeverStraddles(tree: R.Tree, table: Table, e: nat, dir: Path, layer: nat)
    requires e <= |table| && NamesWhatItWrote(tree, layer, Written(table, e)) && StaysTogether(table, e, dir)
    ensures NothingStraddles(tree, dir, layer)
  {
    forall p, q, r ensures !Straddles(tree, dir, layer, p, q, r) {
      if Straddles(tree, dir, layer, p, q, r) {
        assert q in Written(table, e) && r in Written(table, e);
        var i :| 0 <= i < e && Places(table[i]) && table[i].path == q;
        var j :| 0 <= j < e && Places(table[j]) && table[j].path == r;
        assert SortsAway(table, e, p, i, j);
      }
    }
  }

  // ------------------------------------------------------------ links

  lemma {:induction false} LinksMadeMayBeLinks(tables: Tables, o: Owner)
    requires AllWellFormed(tables) && PathsNamed(tables) && Holds(tables, o) && InodeMade(tables, o).LinkInode?
    ensures MayBeALink(tables, o)
    decreases o.layer, o.entry
  {
    if At(tables, o).kind == HardLink {
      ReplayKeepsOwners(tables, o.layer, o.entry);
      var node := LinkedTo(tables, o);
      assert Owned(tables, At(tables, o).target, node);
      LinksMadeMayBeLinks(tables, node.owner);
    }
  }

  /** Where no entry so far can have left a link, none stands. */
  lemma NoneStands(tables: Tables, layer: nat, entries: nat, path: Path)
    requires AllWellFormed(tables) && PathsNamed(tables) && IsPoint(tables, layer, entries)
    requires R.FreeAt(tables, layer, entries) && NoLinkStands(tables, path, Owner(layer, entries))
    ensures !W.IsLink(Foreseen(tables, layer, entries).disk, path)
  {
    var tree := R.ReplayTo(tables, layer, entries).tree;
    if W.IsLink(Foreseen(tables, layer, entries).disk, path) {
      ReplayKeepsOwners(tables, layer, entries);
      ReplayKeepsLinks(tables, layer, entries);
      assert Owned(tables, path, tree[path]);
      LinksMadeMayBeLinks(tables, tree[path].owner);
      assert false;
    }
  }

  lemma StandingLinkIsPlain(tables: Tables, host: W.Host, layer: nat, entries: nat, path: Path)
    requires AllWellFormed(tables) && PathsNamed(tables) && IsPoint(tables, layer, entries) && Canonical(path)
    requires R.FreeAt(tables, layer, entries) && InvAt(tables, host, layer, entries)
    requires forall o: Owner | Holds(tables, o) && o.Precedes(Owner(layer, entries)) && At(tables, o).path == path &&
                               MayBeALink(tables, o) :: LeadsStraight(tables, o, Owner(layer, entries))
    ensures var tree, s := R.ReplayTo(tables, layer, entries).tree, Foreseen(tables, layer, entries);
            LinkIsPlain(tables, tree, s.disk, host, path)
  {
    var tree, s := R.ReplayTo(tables, layer, entries).tree, Foreseen(tables, layer, entries);
    if W.IsLink(s.disk, path) {
      ReplayKeepsOwners(tables, layer, entries);
      ReplayKeepsLinks(tables, layer, entries);
      var o := tree[path].owner;
      assert Owned(tables, path, tree[path]);
      LinksMadeMayBeLinks(tables, o);
      var entry := At(tables, o);
      forall k | 1 <= k <= |Components(entry.link)|
        ensures !W.IsLink(s.disk, Parent(path) + Components(entry.link)[..k])
      {
        NoneStands(tables, layer, entries, Parent(path) + Components(entry.link)[..k]);
      }
      StraightLinksArePlain(tables, tree, s, host, layer, path);
    }
  }

  // ------------------------------------------------------------ whole images

  lemma GuardHolds(tables: Tables, host: W.Host, layer: nat, entries: nat)
    requires AllWellFormed(tables) && PathsNamed(tables) && IsPoint(tables, layer, entries) && entries < |tables[layer]|
    requires R.FreeAt(tables, layer, entries) && InvAt(tables, host, layer, entries) && PlainImage(tables)
    ensures GuardAt(tables, host, layer, entries)
  {
    var owner := Owner(layer, entries);
    assert Holds(tables, owner) && WellFormed(At(tables, owner));
    var tree, s := R.ReplayTo(tables, layer, entries).tree, Foreseen(tables, layer, entries);
    var entry := tables[layer][entries];
    assert PlainLayer(tables[layer]);
    LayersNameWhatTheyWrite(tables, layer, entries);
    if entry.path != ROOT_ENTRY {
      match WhiteoutOf(entry.path)
      case Some(Opaque(dir)) =>
        WrittenIsNotStale(tree, s.written, dir, layer);
        assert StaysTogether(tables[layer], entries, dir);
        TogetherNeverStraddles(tree, tables[layer], entries, dir, layer);
      case Some(_) =>
      case None =>
        if entry.kind == Directory {
          StandingLinkIsPlain(tables, host, layer, entries, entry.path);
        }
    }
  }

  ghost predicate IsPlainSoFar(tables: Tables, host: W.Host, layer: nat, entries: nat)
    requires IsPoint(tables, layer, entries) && PathsNamed(tables)
  {
    GuardedUpTo(tables, host, layer, entries) && InvAt(tables, host, layer, entries)
  }

  lemma OneEntryMoreIsPlain(tables: Tables, host: W.Host, layer: nat, entries: nat)
    requires AllWellFormed(tables) && PathsNamed(tables) && IsPoint(tables, layer, entries) && entries > 0
    requires R.FreeAt(tables, layer, entries) && R.FreeAt(tables, layer, entries - 1) && PlainImage(tables)
    requires IsPlainSoFar(tables, host, layer, entries - 1)
    ensures IsPlainSoFar(tables, host, layer, entries)
  {
    GuardHolds(tables, host, layer, entries - 1);
    GuardedStillHolds(tables, host, layer, entries);
  }

  lemma {:induction false} PlainThroughALayer(tables: Tables, host: W.Host, layer: nat, entries: nat)
    requires AllWellFormed(tables) && PathsNamed(tables) && IsPoint(tables, layer, entries)
    requires R.FreeAt(tables, layer, entries) && PlainImage(tables) && IsPlainSoFar(tables, host, layer, 0)
    ensures IsPlainSoFar(tables, host, layer, entries)
    decreases entries
  {
    if entries > 0 {
      R.FreeBefore(tables, layer, entries);
      PlainThroughALayer(tables, host, layer, entries - 1);
      OneEntryMoreIsPlain(tables, host, layer, entries);
    }
  }

  lemma PlainIntoALayer(tables: Tables, host: W.Host, layer: nat)
    requires AllWellFormed(tables) && PathsNamed(tables) && layer < |tables| && R.FreeAt(tables, layer, 0)
    requires layer > 0 ==> IsPlainSoFar(tables, host, layer - 1, |tables[layer - 1]|)
    ensures IsPlainSoFar(tables, host, layer, 0)
  {
    GuardedStillHolds(tables, host, layer, 0);
  }

  lemma {:induction false} PlainIsGuarded(tables: Tables, host: W.Host, layer: nat, entries: nat)
    requires AllWellFormed(tables) && PathsNamed(tables) && IsPoint(tables, layer, entries)
    requires R.FreeAt(tables, layer, entries) && PlainImage(tables)
    ensures IsPlainSoFar(tables, host, layer, entries)
    decreases layer
  {
    FreeFromTheStart(tables, layer, entries);
    if layer > 0 {
      R.FreeBefore(tables, layer, 0);
      PlainIsGuarded(tables, host, layer - 1, |tables[layer - 1]|);
    }
    PlainIntoALayer(tables, host, layer);
    PlainThroughALayer(tables, host, layer, entries);
  }

  /** Every image whose replay met nothing in the way, whose layers clear away
      nothing above what they have placed, keep together what they place in a
      directory, hide only ordinary names, and whose directory entries meet only
      links that lead straight: on any host the walk places every entry of it
      without stopping, and after each its disk is what the tree says. */
  lemma PlainImagesMirror(tables: Tables, host: W.Host)
    requires AllWellFormed(tables) && PathsNamed(tables) && tables != []
    requires R.Replayed(tables).blocked == R.Nothing && PlainImage(tables)
    ensures Mirrors(tables, host) && Guarded(tables, host)
  {
    var l, e := |tables| - 1, |tables[|tables| - 1]|;
    assert R.FreeAt(tables, l, e);
    PlainIsGuarded(tables, host, l, e);
    ReplayMirrorsTheWalk(tables, host);
  }

  // ------------------------------------------------------------ one such image

  const D: Name := [100]
  const A: Name := [97]
  const B: Name := [98]
  const C: Name := [99]

  /** A directory `d` with a file `a` and a link `b` to it, and on top of that a
      marker for `d/a`, a file `c` and a hard link to it. */
  function Ordinarily(): Tables {
    [[Entry(Directory, [D], [], [], 0, 0), Entry(File, [D, A], [], [], 0, 1), Entry(Symlink, [D, B], A, [], 0, 0)],
     [Entry(File, [D, PREFIX + A], [], [], 0, 0), Entry(File, [C], [], [], 0, 1),
      Entry(HardLink, [B], [], [C], 0, 0)]]
  }

  lemma MarkersOfOrdinarily(l: nat, e: nat)
    requires l < 2 && e < 3
    ensures var path := Ordinarily()[l][e].path;
            path != [] && WhiteoutOf(path) == if l == 1 && e == 0 then Some(Named([D, A])) else None
  {
    var path := Ordinarily()[l][e].path;
    if l == 1 && e == 0 {
      assert (PREFIX + A)[|PREFIX|..] == A && (PREFIX + A)[..|PREFIX|] == PREFIX;
      assert Parent(path) == [D] && Last(path) == PREFIX + A && [D] + [A] == [D, A];
    } else {
      assert |Last(path)| == 1;
    }
  }

  lemma OrdinarilyKeeps(l: nat, i: nat, j: nat)
    requires l < 2 && i < j < 3
    ensures !TakesAbove(Ordinarily()[l][j], Ordinarily()[l][i])
  {
    MarkersOfOrdinarily(l, i);
    MarkersOfOrdinarily(l, j);
  }

  lemma OrdinarilyByLayer(l: nat)
    requires l < 2
    ensures PlainLayer(Ordinarily()[l])
  {
    var table := Ordinarily()[l];
    forall i, j | 0 <= i < j < |table| ensures !TakesAbove(table[j], table[i]) {
      OrdinarilyKeeps(l, i, j);
    }
    forall m | 0 <= m < |table|
      ensures table[m].path != []
      ensures WhiteoutOf(table[m].path).Some? ==> WhiteoutOf(table[m].path) == Some(Named([D, A]))
    {
      MarkersOfOrdinarily(l, m);
    }
    assert Last([D, A]) == A;
  }

  lemma OrdinarilyIsPlain()
    ensures PlainImage(Ordinarily())
  {
    OrdinarilyByLayer(0);
    OrdinarilyByLayer(1);
  }
}
