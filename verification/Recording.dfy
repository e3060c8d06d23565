/** Recording an image's plan: the tables its layers spell, resolved and
    stitched. */
module Recording {
  import opened Paths
  import opened Placement
  import opened Planner
  import opened Owners
  import C = Codec
  import F = Rootfs
  import L = Layers
  import R = Replay
  import S = Stitch

  // ------------------------------------------------------------ one table, two uses

  /** What resolving reads of an entry. */
  function Spelled(e: C.Entry): L.RawEntry {
    L.RawEntry(e.kind, e.names.path, e.names.link, e.numbers.offset, e.numbers.size)
  }

  function SpelledTable(table: S.Entries): seq<L.RawEntry> {
    seq(|table|, e requires 0 <= e < |table| => Spelled(table[e]))
  }

  function SpelledTables(raw: seq<S.Entries>): seq<seq<L.RawEntry>> {
    seq(|raw|, l requires 0 <= l < |raw| => SpelledTable(raw[l]))
  }

  /** An entry with its paths rewritten in their one form. */
  function Rewritten(e: C.Entry, entry: L.Entry): C.Entry {
    e.(names := C.Names(Spell(entry.path), entry.link, e.names.xattrs))
  }

  /** As many layers, each of as many entries. */
  ghost predicate SameShape(raw: seq<S.Entries>, tables: L.Tables) {
    |tables| == |raw| && forall l | 0 <= l < |raw| :: |tables[l]| == |raw[l]|
  }

  function RewrittenTable(table: S.Entries, entries: L.Table): (rewritten: S.Entries)
    requires |entries| == |table|
    ensures |rewritten| == |table|
  {
    seq(|table|, e requires 0 <= e < |table| => Rewritten(table[e], entries[e]))
  }

  function RewrittenTables(raw: seq<S.Entries>, tables: L.Tables): (rewritten: seq<S.Entries>)
    requires SameShape(raw, tables)
    ensures |rewritten| == |raw| && forall l | 0 <= l < |raw| :: rewritten[l] == RewrittenTable(raw[l], tables[l])
  {
    seq(|raw|, l requires 0 <= l < |raw| => RewrittenTable(raw[l], tables[l]))
  }

  // ------------------------------------------------------------ the work, by number

  /** A layer's own of a list of entries, in the list's order. */
  function OfLayer(owners: seq<L.Owner>, l: nat): seq<nat> {
    if owners == [] then []
    else
      var last := owners[|owners| - 1];
      OfLayer(owners[..|owners| - 1], l) + if last.layer == l then [last.entry] else []
  }

  /** The entry with the number is among the first `i` of a list. */
  ghost predicate IsAmong(owners: seq<L.Owner>, i: nat, l: nat, entry: nat) {
    exists h | 0 <= h < i && h < |owners| :: owners[h] == L.Owner(l, entry)
  }

  /** Each number is an entry's of the layer, and those before it come from
      earlier in the list. */
  lemma {:induction false} OfLayerIsListed(owners: seq<L.Owner>, l: nat, k: nat) returns (i: nat)
    requires k < |OfLayer(owners, l)|
    ensures i < |owners| && owners[i] == L.Owner(l, OfLayer(owners, l)[k])
    ensures forall j | 0 <= j < k :: IsAmong(owners, i, l, OfLayer(owners, l)[j])
  {
    var last := |owners| - 1;
    var shorter := owners[..last];
    var before := OfLayer(shorter, l);
    if k < |before| {
      i := OfLayerIsListed(shorter, l, k);
      forall j | 0 <= j < k ensures IsAmong(owners, i, l, OfLayer(owners, l)[j]) {
        assert IsAmong(shorter, i, l, before[j]);
        var h :| 0 <= h < i && h < |shorter| && shorter[h] == L.Owner(l, before[j]);
        assert owners[h] == shorter[h];
      }
    } else {
      i := last;
      forall j | 0 <= j < k ensures IsAmong(owners, i, l, OfLayer(owners, l)[j]) {
        var h := OfLayerIsListed(shorter, l, j);
        assert owners[h] == shorter[h];
      }
    }
  }

  /** And none of the layer's own is left out. */
  lemma {:induction false} OfLayerIsAll(owners: seq<L.Owner>, i: nat)
    requires i < |owners|
    ensures owners[i].entry in OfLayer(owners, owners[i].layer)
  {
    var last := |owners| - 1;
    if i < last {
      OfLayerIsAll(owners[..last], i);
    }
  }

  function PairOf(o: L.Owner): F.Pair {
    F.Pair(o.layer, o.entry)
  }

  function PairsOf(owners: seq<L.Owner>): (pairs: seq<F.Pair>)
    ensures |pairs| == |owners| && forall k | 0 <= k < |owners| :: pairs[k] == PairOf(owners[k])
  {
    seq(|owners|, k requires 0 <= k < |owners| => PairOf(owners[k]))
  }

  /** A plan's work by the numbers of its layers' entries. */
  function Numbered(work: Work, layers: nat): (numbered: F.Work)
    ensures |numbered.files| == layers
    ensures forall l | 0 <= l < layers :: numbered.files[l].entries == OfLayer(work.files, l)
  {
    F.Work(seq(layers, l requires 0 <= l => F.Files(OfLayer(work.files, l))), PairsOf(work.symlinks),
           PairsOf(work.hardLinks))
  }

  // ------------------------------------------------------------ what the plan gives holds

  lemma SpellsCanonically(path: Path)
    requires Canonical(path)
    ensures F.IsCanonical(Spell(path))
  {
    CanonicalFormIsFixed(path);
  }

  /** What is placed as one kind is recorded as that kind, by a path and, for a
      hard link, a target in their one form. */
  lemma PlacedHolds(raw: seq<S.Entries>, tables: L.Tables, tree: R.Tree, kind: L.Kind, o: L.Owner)
    requires SameShape(raw, tables) && IsCanonicalised(SpelledTables(raw), tables) && OwnersMatch(tables, tree)
    requires kind != L.Directory && L.Holds(tables, o) && Placed(tables, tree, kind, o)
    ensures S.HoldsAs(RewrittenTables(raw, tables), o.layer, o.entry, kind)
    ensures var e := RewrittenTables(raw, tables)[o.layer][o.entry];
            && e == Rewritten(raw[o.layer][o.entry], L.At(tables, o))
            && e.numbers.offset == L.At(tables, o).offset
            && (kind == L.HardLink ==> F.IsCanonical(e.names.link))
  {
    var entry := L.At(tables, o);
    assert Owned(tables, entry.path, tree[entry.path]);
    assert SpelledTables(raw)[o.layer][o.entry] == Spelled(raw[o.layer][o.entry]);
    assert L.CanonicalForm(Spelled(raw[o.layer][o.entry])) == Some(entry);
    assert L.WellFormed(entry);
    SpellsCanonically(entry.path);
    if kind == L.HardLink { SpellsCanonically(entry.target); }
  }

  /** A layer's files come out in stream order. */
  lemma FilesAreHeld(raw: seq<S.Entries>, tables: L.Tables, tree: R.Tree, files: seq<L.Owner>, l: nat)
    requires SameShape(raw, tables) && IsCanonicalised(SpelledTables(raw), tables) && OwnersMatch(tables, tree)
    requires Lists(tables, tree, L.File, files) && InStreamOrder(tables, files) && l < |raw|
    ensures S.FilesHold(RewrittenTables(raw, tables), l, OfLayer(files, l))
  {
    var mine, entries := OfLayer(files, l), RewrittenTables(raw, tables);
    forall k | 0 <= k < |mine| ensures S.HoldsAs(entries, l, mine[k], L.File) {
      var i := OfLayerIsListed(files, l, k);
      PlacedHolds(raw, tables, tree, L.File, files[i]);
    }
    forall j, k | 0 <= j < k < |mine|
      ensures entries[l][mine[j]].numbers.offset <= entries[l][mine[k]].numbers.offset
    {
      var i := OfLayerIsListed(files, l, k);
      assert IsAmong(files, i, l, mine[j]);
      var h :| 0 <= h < i && h < |files| && files[h] == L.Owner(l, mine[j]);
      PlacedHolds(raw, tables, tree, L.File, files[i]);
      PlacedHolds(raw, tables, tree, L.File, files[h]);
      assert ComesFirst(tables, files[h], files[i]);
    }
  }

  lemma LinksAreHeld(raw: seq<S.Entries>, tables: L.Tables, tree: R.Tree, kind: L.Kind, owners: seq<L.Owner>)
    requires SameShape(raw, tables) && IsCanonicalised(SpelledTables(raw), tables) && OwnersMatch(tables, tree)
    requires Lists(tables, tree, kind, owners) && kind != L.Directory
    ensures forall p | p in PairsOf(owners) ::
              && S.HoldsAs(RewrittenTables(raw, tables), p.layer, p.entry, kind)
              && (kind == L.HardLink ==> F.IsCanonical(RewrittenTables(raw, tables)[p.layer][p.entry].names.link))
  {
    forall p | p in PairsOf(owners)
      ensures S.HoldsAs(RewrittenTables(raw, tables), p.layer, p.entry, kind)
      ensures kind == L.HardLink ==> F.IsCanonical(RewrittenTables(raw, tables)[p.layer][p.entry].names.link)
    {
      var k :| 0 <= k < |owners| && PairsOf(owners)[k] == p;
      PlacedHolds(raw, tables, tree, kind, owners[k]);
    }
  }

  /** The work of every plan can be stitched. */
  lemma PlannedWorkHolds(raw: seq<S.Entries>, tables: L.Tables, plan: Plan)
    requires SameShape(raw, tables) && IsCanonicalised(SpelledTables(raw), tables) && IsPlanOf(tables, plan)
    ensures S.WorkHolds(RewrittenTables(raw, tables), Numbered(plan.work, |raw|))
  {
    var tree := R.Replayed(tables).tree;
    ReplayedIsOwned(tables);
    forall l | 0 <= l < |raw|
      ensures S.FilesHold(RewrittenTables(raw, tables), l, Numbered(plan.work, |raw|).files[l].entries)
    {
      FilesAreHeld(raw, tables, tree, plan.work.files, l);
    }
    LinksAreHeld(raw, tables, tree, L.Symlink, plan.work.symlinks);
    LinksAreHeld(raw, tables, tree, L.HardLink, plan.work.hardLinks);
  }

  /** The directories, with the modes they are given. */
  function Listed(dirs: seq<Path>, modes: Path -> nat): (listed: seq<F.Directory>)
    ensures |listed| == |dirs| && forall i | 0 <= i < |dirs| :: listed[i] == F.Directory(Spell(dirs[i]), modes(dirs[i]))
  {
    seq(|dirs|, i requires 0 <= i < |dirs| => F.Directory(Spell(dirs[i]), modes(dirs[i])))
  }

  lemma DirectoriesAreCanonical(tables: L.Tables, tree: R.Tree, dirs: seq<Path>, modes: Path -> nat)
    requires OwnersMatch(tables, tree) && ListsDirectories(tree, dirs)
    ensures forall d | d in Listed(dirs, modes) :: d.path == F.ROOT_PATH || F.IsCanonical(d.path)
  {
    forall i | 0 <= i < |dirs| ensures dirs[i] == L.ROOT_ENTRY || F.IsCanonical(Spell(dirs[i])) {
      var dir := dirs[i];
      assert WantsDirectory(tree, dir);
      if dir in tree {
        assert Owned(tables, dir, tree[dir]);
      } else {
        var p :| p in tree && Under(dir, p);
        assert Owned(tables, p, tree[p]);
        assert forall k | 0 <= k < |dir| :: dir[k] == p[k];
      }
      if dir != L.ROOT_ENTRY { SpellsCanonically(dir); }
    }
  }

  /** The attributes the entries of a table carry, under its layer's number. */
  function XattrsIn(table: S.Entries, l: nat): (xattrs: seq<F.Xattrs>)
    ensures forall x | x in xattrs :: x.layer == l
  {
    if table == [] then []
    else
      var last := table[|table| - 1];
      XattrsIn(table[..|table| - 1], l) +
      if last.names.xattrs == [] then [] else [F.Xattrs(l, last.names.path, last.names.xattrs)]
  }

  function XattrsOf(tables: seq<S.Entries>): (xattrs: seq<F.Xattrs>)
    ensures forall x | x in xattrs :: x.layer < |tables|
  {
    if tables == [] then []
    else XattrsOf(tables[..|tables| - 1]) + XattrsIn(tables[|tables| - 1], |tables| - 1)
  }

  /** How many entries with attributes come before the entry at a point. */
  function WithXattrsBefore(tables: seq<S.Entries>, l: nat, e: nat): nat
    requires l < |tables| && e <= |tables[l]|
  {
    if e > 0 then WithXattrsBefore(tables, l, e - 1) + if tables[l][e - 1].names.xattrs != [] then 1 else 0
    else if l > 0 then WithXattrsBefore(tables, l - 1, |tables[l - 1]|)
    else 0
  }

  predicate IsListedAt(xattrs: seq<F.Xattrs>, k: nat, l: nat, e: C.Entry) {
    k < |xattrs| && xattrs[k] == F.Xattrs(l, e.names.path, e.names.xattrs)
  }

  /** What is listed once `e` entries of layer `l` have been. */
  function XattrsTo(tables: seq<S.Entries>, l: nat, e: nat): seq<F.Xattrs>
    requires l < |tables| && e <= |tables[l]|
  {
    XattrsOf(tables[..l]) + XattrsIn(tables[l][..e], l)
  }

  lemma XattrsGrow(tables: seq<S.Entries>, l: nat, e: nat)
    requires l < |tables| && e < |tables[l]|
    ensures XattrsTo(tables, l, e + 1) == XattrsTo(tables, l, e) +
              if tables[l][e].names.xattrs == [] then []
              else [F.Xattrs(l, tables[l][e].names.path, tables[l][e].names.xattrs)]
  {
    assert tables[l][..e + 1][..e] == tables[l][..e];
  }

  lemma XattrsOfALayer(tables: seq<S.Entries>, l: nat)
    requires 0 < l < |tables|
    ensures XattrsTo(tables, l, 0) == XattrsTo(tables, l - 1, |tables[l - 1]|)
  {
    assert tables[..l][..l - 1] == tables[..l - 1] && tables[l - 1][..|tables[l - 1]|] == tables[l - 1];
    assert tables[l][..0] == [];
  }

  lemma {:induction false} XattrsAreListed(tables: seq<S.Entries>, layer: nat, entries: nat, l: nat, e: nat)
    requires layer < |tables| && entries <= |tables[layer]|
    requires l < layer || (l == layer && e < entries)
    requires e < |tables[l]| && tables[l][e].names.xattrs != []
    ensures IsListedAt(XattrsTo(tables, layer, entries), WithXattrsBefore(tables, l, e), l, tables[l][e])
    ensures |XattrsTo(tables, layer, entries)| == WithXattrsBefore(tables, layer, entries)
    decreases layer, entries
  {
    XattrsAreCounted(tables, layer, entries);
    if entries > 0 {
      XattrsGrow(tables, layer, entries - 1);
      if l == layer && e == entries - 1 {
        XattrsAreCounted(tables, l, e);
      } else {
        XattrsAreListed(tables, layer, entries - 1, l, e);
      }
    } else {
      XattrsOfALayer(tables, layer);
      XattrsAreListed(tables, layer - 1, |tables[layer - 1]|, l, e);
    }
  }

  lemma {:induction false} XattrsAreCounted(tables: seq<S.Entries>, layer: nat, entries: nat)
    requires layer < |tables| && entries <= |tables[layer]|
    ensures |XattrsTo(tables, layer, entries)| == WithXattrsBefore(tables, layer, entries)
    decreases layer, entries
  {
    if entries > 0 {
      XattrsGrow(tables, layer, entries - 1);
      XattrsAreCounted(tables, layer, entries - 1);
    } else if layer > 0 {
      XattrsOfALayer(tables, layer);
      XattrsAreCounted(tables, layer - 1, |tables[layer - 1]|);
    } else {
      assert tables[..0] == [] && tables[0][..0] == [];
    }
  }

  /** Every entry with attributes is listed, in the layers' order, and nothing
      else. */
  lemma EveryAttributeIsRecorded(tables: seq<S.Entries>, l: nat, e: nat)
    requires l < |tables| && e < |tables[l]|
    ensures var last := |tables| - 1;
            && |XattrsOf(tables)| == WithXattrsBefore(tables, last, |tables[last]|)
            && (tables[l][e].names.xattrs != [] ==>
                  IsListedAt(XattrsOf(tables), WithXattrsBefore(tables, l, e), l, tables[l][e]))
  {
    var last := |tables| - 1;
    assert tables[..last + 1] == tables && tables[last][..|tables[last]|] == tables[last];
    assert XattrsTo(tables, last, |tables[last]|) == XattrsOf(tables);
    XattrsAreCounted(tables, last, |tables[last]|);
    if tables[l][e].names.xattrs != [] {
      XattrsAreListed(tables, last, |tables[last]|, l, e);
    }
  }

  // ------------------------------------------------------------ stitching an image

  /** What was recorded of an image, and what it was recorded from. */
  ghost predicate Records(digests: seq<Bytes>, raw: seq<S.Entries>, tables: L.Tables, plan: Plan, t: F.Table) {
    && |digests| == |raw| && SameShape(raw, tables) && IsCanonicalised(SpelledTables(raw), tables)
    && IsPlanOf(tables, plan)
    && S.IsStitched(digests, RewrittenTables(raw, tables), Numbered(plan.work, |raw|), t)
    && S.RestHolds(RewrittenTables(raw, tables), t.directories, t.xattrs)
  }

  /** From an image's tables to the table recorded of it. There is one just when
      the image has a plan with work. */
  method StitchImage(manifest: Bytes, platform: Bytes, digests: seq<Bytes>, raw: seq<S.Entries>, modes: Path -> nat)
    returns (t: Option<F.Table>, tables: Option<L.Tables>, plan: Option<Plan>)
    requires |digests| == |raw|
    ensures tables.Some? <==>
              forall l, e | 0 <= l < |raw| && 0 <= e < |raw[l]| :: L.IsAccepted(Spelled(raw[l][e]))
    ensures tables.Some? ==> IsCanonicalised(SpelledTables(raw), tables.value)
    ensures t.Some? <==> plan.Some?
    ensures t.Some? <==>
              && tables.Some? && L.PathsNamed(tables.value)
              && R.Replayed(tables.value).blocked == R.Nothing
              && Placeable(tables.value, R.Replayed(tables.value).tree)
    ensures t.Some? ==>
              && Records(digests, raw, tables.value, plan.value, t.value)
              && t.value.manifest == manifest && t.value.platform == platform
              && t.value.directories == Listed(plan.value.directories, modes)
              && t.value.xattrs == XattrsOf(RewrittenTables(raw, tables.value))
  {
    tables, plan := Resolve(SpelledTables(raw));
    assert forall l, e | 0 <= l < |raw| && 0 <= e < |raw[l]| :: SpelledTables(raw)[l][e] == Spelled(raw[l][e]);
    if plan.None? { return None, tables, plan; }
    assert forall l | 0 <= l < |raw| :: |SpelledTables(raw)[l]| == |raw[l]|;
    var entries := RewrittenTables(raw, tables.value);
    PlannedWorkHolds(raw, tables.value, plan.value);
    ReplayedIsOwned(tables.value);
    DirectoriesAreCanonical(tables.value, R.Replayed(tables.value).tree, plan.value.directories, modes);
    var table := S.Stitch(manifest, platform, digests, entries, Listed(plan.value.directories, modes),
                          Numbered(plan.value.work, |raw|), XattrsOf(entries));
    return Some(table), tables, plan;
  }

  /** Every table recorded of an image is accepted when it is read back, is the
      one that was written, and places what the image's own plan places: the same
      entries as files, symlinks and hard links, each in the plan's order. */
  lemma RecordedIsThePlan(d: F.Deflate, digests: seq<Bytes>, raw: seq<S.Entries>, tables: L.Tables, plan: Plan,
                          t: F.Table)
    requires F.Undoes(d) && Records(digests, raw, tables, plan, t)
    requires F.Fits(t) && |F.PutTable(t)| <= F.MAX_PLAIN && |d.pack(F.PutTable(t))| < C.Limit(8)
    ensures F.Checks(t) && F.ReadBack(d, F.Written(d, t).value) == Some(t)
    ensures S.PlacesTheSame(RewrittenTables(raw, tables), Numbered(plan.work, |raw|), t)
  {
    PlannedWorkHolds(raw, tables, plan);
    S.StitchedChecks(digests, RewrittenTables(raw, tables), Numbered(plan.work, |raw|), t);
    S.StitchedIsThePlan(d, digests, RewrittenTables(raw, tables), Numbered(plan.work, |raw|), t);
  }
}
