/** Keeping of each layer's table only what is placed from it. */
module Stitch {
  import opened Paths
  import opened Codec
  import opened Rootfs
  import L = Layers

  /** A layer's whole table of entries. */
  type Entries = seq<Entry>

  // ------------------------------------------------------------ renumbering

  /** How many of the first `e` entries are used. */
  function Rank(used: seq<bool>, e: nat): nat
    requires e <= |used|
  {
    if e == 0 then 0 else Rank(used, e - 1) + if used[e - 1] then 1 else 0
  }

  /** What is kept of the first `e` entries. */
  function Kept(table: Entries, used: seq<bool>, e: nat): (kept: Entries)
    requires e <= |used| == |table|
    ensures |kept| == Rank(used, e)
  {
    if e == 0 then [] else Kept(table, used, e - 1) + if used[e - 1] then [table[e - 1]] else []
  }

  /** Renumbering keeps the order of what is used. */
  lemma {:induction false} RankRises(used: seq<bool>, e: nat, f: nat)
    requires e <= f <= |used|
    ensures Rank(used, e) <= Rank(used, f)
    ensures e < f && used[e] ==> Rank(used, e) < Rank(used, f)
  {
    if e < f { RankRises(used, e, f - 1); }
  }

  /** A used entry is found under its new number. */
  lemma {:induction false} UsedIsKept(table: Entries, used: seq<bool>, e: nat, n: nat)
    requires e < n <= |used| == |table| && used[e]
    ensures Rank(used, e) < |Kept(table, used, n)| && Kept(table, used, n)[Rank(used, e)] == table[e]
  {
    if e < n - 1 { UsedIsKept(table, used, e, n - 1); }
  }

  /** And nothing else is kept. */
  lemma {:induction false} KeptIsUsed(table: Entries, used: seq<bool>, k: nat, n: nat) returns (e: nat)
    requires n <= |used| == |table| && k < |Kept(table, used, n)|
    ensures e < n && used[e] && Rank(used, e) == k && Kept(table, used, n)[k] == table[e]
  {
    if k < Rank(used, n - 1) { e := KeptIsUsed(table, used, k, n - 1); } else { e := n - 1; }
  }

  const UNUSED := 0xFFFF_FFFF

  method Keep(table: Entries, used: array<bool>) returns (kept: Entries, index: array<nat>)
    requires used.Length == |table|
    ensures fresh(index) && index.Length == |table| && kept == Kept(table, used[..], |table|)
    ensures forall e | 0 <= e < |table| :: index[e] == if used[e] then Rank(used[..], e) else UNUSED
  {
    index := new nat[|table|](_ => UNUSED);
    kept := [];
    for e := 0 to |table|
      invariant kept == Kept(table, used[..], e)
      invariant forall i | 0 <= i < |table| :: index[i] == if i < e && used[i] then Rank(used[..], i) else UNUSED
    {
      if used[e] {
        index[e] := |kept|;
        kept := kept + [table[e]];
      }
    }
  }

  // ------------------------------------------------------------ what is placed

  predicate Holds(tables: seq<Entries>, layer: nat, entry: nat) {
    layer < |tables| && entry < |tables[layer]|
  }

  predicate HoldsAs(tables: seq<Entries>, layer: nat, entry: nat, kind: L.Kind) {
    Holds(tables, layer, entry) && tables[layer][entry].kind == kind && IsCanonical(tables[layer][entry].names.path)
  }

  /** Work that places only what the tables hold, files in stream order. */
  ghost predicate WorkHolds(tables: seq<Entries>, work: Work) {
    && |work.files| == |tables|
    && (forall l | 0 <= l < |tables| :: FilesHold(tables, l, work.files[l].entries))
    && (forall p | p in work.symlinks :: HoldsAs(tables, p.layer, p.entry, L.Symlink))
    && (forall p | p in work.hardLinks ::
          HoldsAs(tables, p.layer, p.entry, L.HardLink) && IsCanonical(tables[p.layer][p.entry].names.link))
  }

  ghost predicate FilesHold(tables: seq<Entries>, l: nat, files: seq<nat>)
    requires l < |tables|
  {
    && (forall k | 0 <= k < |files| :: HoldsAs(tables, l, files[k], L.File))
    && forall j, k | 0 <= j < k < |files| ::
         tables[l][files[j]].numbers.offset <= tables[l][files[k]].numbers.offset
  }

  predicate IsOf(p: Pair, l: nat, e: nat) {
    p.layer == l && p.entry == e
  }

  /** Whether something is placed from an entry. */
  predicate IsPlaced(work: Work, l: nat, e: nat)
    requires l < |work.files|
  {
    || e in work.files[l].entries
    || (exists k | 0 <= k < |work.symlinks| :: IsOf(work.symlinks[k], l, e))
    || (exists k | 0 <= k < |work.hardLinks| :: IsOf(work.hardLinks[k], l, e))
  }

  /** Marks what is placed from one layer. */
  method Mark(tables: seq<Entries>, work: Work, l: nat) returns (used: array<bool>)
    requires WorkHolds(tables, work) && l < |tables|
    ensures fresh(used) && used.Length == |tables[l]|
    ensures forall e | 0 <= e < |tables[l]| :: used[e] <==> IsPlaced(work, l, e)
  {
    used := new bool[|tables[l]|](_ => false);
    var files := work.files[l].entries;
    assert FilesHold(tables, l, files);
    for k := 0 to |files|
      invariant forall e | 0 <= e < |tables[l]| :: used[e] <==> e in files[..k]
    {
      assert HoldsAs(tables, l, files[k], L.File);
      used[files[k]] := true;
    }
    assert files[..|files|] == files;
    MarkPairs(tables, work.symlinks, l, used);
    MarkPairs(tables, work.hardLinks, l, used);
  }

  method MarkPairs(tables: seq<Entries>, pairs: seq<Pair>, l: nat, used: array<bool>)
    requires l < |tables| && used.Length == |tables[l]| && forall p | p in pairs :: Holds(tables, p.layer, p.entry)
    modifies used
    ensures forall e | 0 <= e < |tables[l]| ::
              used[e] <==> old(used[e]) || exists k | 0 <= k < |pairs| :: IsOf(pairs[k], l, e)
  {
    for k := 0 to |pairs|
      invariant forall e | 0 <= e < |tables[l]| ::
                  used[e] <==> old(used[e]) || exists i | 0 <= i < k :: IsOf(pairs[i], l, e)
    {
      assert pairs[k] in pairs;
      if pairs[k].layer == l {
        used[pairs[k].entry] := true;
        assert IsOf(pairs[k], l, pairs[k].entry);
      }
    }
  }

  // ------------------------------------------------------------ stitch

  function UsedOf(tables: seq<Entries>, work: Work, l: nat): (used: seq<bool>)
    requires l < |tables| == |work.files|
    ensures |used| == |tables[l]|
  {
    seq(|tables[l]|, e requires 0 <= e => IsPlaced(work, l, e))
  }

  /** The number an entry has in the stitched table. */
  function Renumbered(tables: seq<Entries>, work: Work, l: nat, e: nat): nat
    requires |tables| == |work.files| && Holds(tables, l, e)
  {
    Rank(UsedOf(tables, work, l), e)
  }

  function StitchedLayer(digests: seq<Bytes>, tables: seq<Entries>, work: Work, l: nat): Layer
    requires l < |tables| == |work.files| == |digests|
  {
    Layer(digests[l], Kept(tables[l], UsedOf(tables, work, l), |tables[l]|))
  }

  ghost predicate FilesRenumbered(tables: seq<Entries>, work: Work, l: nat, after: seq<nat>)
    requires l < |tables| == |work.files|
  {
    var files := work.files[l].entries;
    && |after| == |files|
    && forall k | 0 <= k < |files| && Holds(tables, l, files[k]) :: after[k] == Renumbered(tables, work, l, files[k])
  }

  ghost predicate PairsRenumbered(tables: seq<Entries>, work: Work, pairs: seq<Pair>, after: seq<Pair>)
    requires |tables| == |work.files|
  {
    && |after| == |pairs|
    && forall k | 0 <= k < |pairs| && Holds(tables, pairs[k].layer, pairs[k].entry) ::
         after[k] == Pair(pairs[k].layer, Renumbered(tables, work, pairs[k].layer, pairs[k].entry))
  }

  /** The same work, by the numbers entries have once the rest is gone. */
  ghost predicate IsStitched(digests: seq<Bytes>, tables: seq<Entries>, work: Work, t: Table)
    requires |tables| == |work.files| == |digests|
  {
    && |t.layers| == |t.work.files| == |tables|
    && (forall l | 0 <= l < |tables| :: t.layers[l] == StitchedLayer(digests, tables, work, l))
    && (forall l | 0 <= l < |tables| :: FilesRenumbered(tables, work, l, t.work.files[l].entries))
    && PairsRenumbered(tables, work, work.symlinks, t.work.symlinks)
    && PairsRenumbered(tables, work, work.hardLinks, t.work.hardLinks)
  }

  method RenumberPairs(tables: seq<Entries>, work: Work, pairs: seq<Pair>, index: seq<seq<nat>>)
    returns (after: seq<Pair>)
    requires |index| == |tables| == |work.files| && forall p | p in pairs :: Holds(tables, p.layer, p.entry)
    requires forall l | 0 <= l < |tables| :: |index[l]| == |tables[l]|
    requires forall p | p in pairs && Holds(tables, p.layer, p.entry) ::
               index[p.layer][p.entry] == Renumbered(tables, work, p.layer, p.entry)
    ensures PairsRenumbered(tables, work, pairs, after)
  {
    after := [];
    for k := 0 to |pairs|
      invariant |after| == k
      invariant forall i | 0 <= i < k ::
                after[i] == Pair(pairs[i].layer, Renumbered(tables, work, pairs[i].layer, pairs[i].entry))
    {
      assert pairs[k] in pairs;
      after := after + [Pair(pairs[k].layer, index[pairs[k].layer][pairs[k].entry])];
    }
  }

  method RenumberFiles(tables: seq<Entries>, work: Work, l: nat, index: seq<nat>) returns (after: seq<nat>)
    requires WorkHolds(tables, work) && l < |tables| && |index| == |tables[l]|
    requires forall e | 0 <= e < |tables[l]| && IsPlaced(work, l, e) :: index[e] == Renumbered(tables, work, l, e)
    ensures FilesRenumbered(tables, work, l, after)
  {
    var files := work.files[l].entries;
    assert FilesHold(tables, l, files);
    after := [];
    for k := 0 to |files|
      invariant |after| == k
      invariant forall i | 0 <= i < k && Holds(tables, l, files[i]) :: after[i] == Renumbered(tables, work, l, files[i])
    {
      assert HoldsAs(tables, l, files[k], L.File) && IsPlaced(work, l, files[k]);
      after := after + [index[files[k]]];
    }
  }

  /** One layer's kept entries and where they went. */
  method StitchLayer(digests: seq<Bytes>, tables: seq<Entries>, work: Work, l: nat)
    returns (layer: Layer, index: seq<nat>)
    requires WorkHolds(tables, work) && l < |tables| == |digests|
    ensures layer == StitchedLayer(digests, tables, work, l) && |index| == |tables[l]|
    ensures forall e | 0 <= e < |tables[l]| && IsPlaced(work, l, e) :: index[e] == Renumbered(tables, work, l, e)
  {
    var used := Mark(tables, work, l);
    var kept, numbers := Keep(tables[l], used);
    assert used[..] == UsedOf(tables, work, l);
    return Layer(digests[l], kept), numbers[..];
  }

  method Stitch(manifest: Bytes, platform: Bytes, digests: seq<Bytes>, tables: seq<Entries>,
                directories: seq<Directory>, work: Work, xattrs: seq<Xattrs>) returns (t: Table)
    requires WorkHolds(tables, work) && |digests| == |tables|
    ensures IsStitched(digests, tables, work, t)
    ensures t.manifest == manifest && t.platform == platform && t.directories == directories && t.xattrs == xattrs
  {
    var layers: seq<Layer>, files: seq<Files>, indexes: seq<seq<nat>> := [], [], [];
    for l := 0 to |tables|
      invariant |layers| == |files| == |indexes| == l
      invariant forall i | 0 <= i < l :: layers[i] == StitchedLayer(digests, tables, work, i)
      invariant forall i | 0 <= i < l :: FilesRenumbered(tables, work, i, files[i].entries)
      invariant forall i | 0 <= i < l :: |indexes[i]| == |tables[i]|
      invariant forall i, e | 0 <= i < l && 0 <= e < |tables[i]| && IsPlaced(work, i, e) ::
                  indexes[i][e] == Renumbered(tables, work, i, e)
    {
      var layer, index := StitchLayer(digests, tables, work, l);
      var renumbered := RenumberFiles(tables, work, l, index);
      layers, files, indexes := layers + [layer], files + [Files(renumbered)], indexes + [index];
    }
    PairsArePlaced(tables, work);
    var symlinks := RenumberPairs(tables, work, work.symlinks, indexes);
    var hardLinks := RenumberPairs(tables, work, work.hardLinks, indexes);
    t := Table(manifest, platform, layers, directories, Work(files, symlinks, hardLinks), xattrs);
  }

  lemma PairsArePlaced(tables: seq<Entries>, work: Work)
    requires WorkHolds(tables, work)
    ensures forall p | p in work.symlinks || p in work.hardLinks ::
              Holds(tables, p.layer, p.entry) && IsPlaced(work, p.layer, p.entry)
  {
  }

  // ------------------------------------------------------------ the same image

  /** An entry placed from a stitched table is the one placed before. */
  lemma SameEntry(digests: seq<Bytes>, tables: seq<Entries>, work: Work, t: Table, l: nat, e: nat)
    requires WorkHolds(tables, work) && |digests| == |tables| && IsStitched(digests, tables, work, t)
    requires Holds(tables, l, e) && IsPlaced(work, l, e)
    ensures var n := Renumbered(tables, work, l, e);
            n < |t.layers[l].entries| && t.layers[l].entries[n] == tables[l][e]
  {
    assert t.layers[l] == StitchedLayer(digests, tables, work, l);
    UsedIsKept(tables[l], UsedOf(tables, work, l), e, |tables[l]|);
  }

  /** A file's number in the stitched table, and the entry found under it. */
  lemma SameFile(digests: seq<Bytes>, tables: seq<Entries>, work: Work, t: Table, l: nat, k: nat)
    requires WorkHolds(tables, work) && |digests| == |tables| && IsStitched(digests, tables, work, t)
    requires l < |tables| && k < |work.files[l].entries|
    ensures HoldsAs(tables, l, work.files[l].entries[k], L.File)
    ensures |t.work.files[l].entries| == |work.files[l].entries|
    ensures EntryAt(t, l, t.work.files[l].entries[k], L.File) == Some(tables[l][work.files[l].entries[k]])
  {
    assert FilesHold(tables, l, work.files[l].entries);
    assert FilesRenumbered(tables, work, l, t.work.files[l].entries);
    SameEntry(digests, tables, work, t, l, work.files[l].entries[k]);
  }

  lemma SameLink(digests: seq<Bytes>, tables: seq<Entries>, work: Work, t: Table, pairs: seq<Pair>, after: seq<Pair>,
                 kind: L.Kind, k: nat)
    requires WorkHolds(tables, work) && |digests| == |tables| && IsStitched(digests, tables, work, t)
    requires PairsRenumbered(tables, work, pairs, after) && k < |pairs|
    requires forall p | p in pairs :: HoldsAs(tables, p.layer, p.entry, kind) && IsPlaced(work, p.layer, p.entry)
    ensures pairs[k].layer < |tables| && pairs[k].entry < |tables[pairs[k].layer]|
    ensures EntryAt(t, after[k].layer, after[k].entry, kind) == Some(tables[pairs[k].layer][pairs[k].entry])
  {
    assert pairs[k] in pairs;
    SameEntry(digests, tables, work, t, pairs[k].layer, pairs[k].entry);
  }

  /** Within a layer what is kept keeps its order, and all of it is placed. */
  lemma OnlyWhatIsPlaced(digests: seq<Bytes>, tables: seq<Entries>, work: Work, t: Table, l: nat, n: nat)
    returns (e: nat)
    requires WorkHolds(tables, work) && |digests| == |tables| && IsStitched(digests, tables, work, t)
    requires l < |tables| && n < |t.layers[l].entries|
    ensures Holds(tables, l, e) && IsPlaced(work, l, e) && Renumbered(tables, work, l, e) == n
    ensures t.layers[l].entries[n] == tables[l][e]
    ensures forall f | 0 <= f < e && IsPlaced(work, l, f) :: Renumbered(tables, work, l, f) < n
  {
    assert t.layers[l] == StitchedLayer(digests, tables, work, l);
    e := KeptIsUsed(tables[l], UsedOf(tables, work, l), n, |tables[l]|);
    forall f | 0 <= f < e && IsPlaced(work, l, f) ensures Renumbered(tables, work, l, f) < n {
      RankRises(UsedOf(tables, work, l), f, e);
    }
  }

  // ------------------------------------------------------------ out and back

  /** What a plan gives beside its work: directories and attributes of its own
      layers, by paths under the rootfs. */
  ghost predicate RestHolds(tables: seq<Entries>, directories: seq<Directory>, xattrs: seq<Xattrs>) {
    && (forall d | d in directories :: d.path == ROOT_PATH || IsCanonical(d.path))
    && forall x | x in xattrs :: x.layer < |tables|
  }

  lemma PlacedIsCanonical(tables: seq<Entries>, work: Work, l: nat, e: nat)
    requires WorkHolds(tables, work) && Holds(tables, l, e) && IsPlaced(work, l, e)
    ensures IsCanonical(tables[l][e].names.path)
  {
  }

  lemma StitchedPathsCheck(digests: seq<Bytes>, tables: seq<Entries>, work: Work, t: Table)
    requires WorkHolds(tables, work) && |digests| == |tables| && IsStitched(digests, tables, work, t)
    requires RestHolds(tables, t.directories, t.xattrs)
    ensures PathsCheck(t)
  {
    forall layer, e | layer in t.layers && e in layer.entries ensures IsCanonical(e.names.path) {
      var l :| 0 <= l < |t.layers| && t.layers[l] == layer;
      var n :| 0 <= n < |layer.entries| && layer.entries[n] == e;
      var from := OnlyWhatIsPlaced(digests, tables, work, t, l, n);
      PlacedIsCanonical(tables, work, l, from);
    }
  }

  lemma StitchedFilesCheck(digests: seq<Bytes>, tables: seq<Entries>, work: Work, t: Table, l: nat)
    requires WorkHolds(tables, work) && |digests| == |tables| && IsStitched(digests, tables, work, t) && l < |tables|
    ensures FilesCheck(t, l, t.work.files[l])
  {
    var files := t.work.files[l].entries;
    assert FilesHold(tables, l, work.files[l].entries) && FilesRenumbered(tables, work, l, files);
    forall k | 0 <= k < |files|
      ensures HoldsAs(tables, l, work.files[l].entries[k], L.File)
      ensures EntryAt(t, l, files[k], L.File) == Some(tables[l][work.files[l].entries[k]])
    {
      SameFile(digests, tables, work, t, l, k);
    }
  }

  lemma StitchedLinksCheck(digests: seq<Bytes>, tables: seq<Entries>, work: Work, t: Table)
    requires WorkHolds(tables, work) && |digests| == |tables| && IsStitched(digests, tables, work, t)
    ensures forall p | p in t.work.symlinks :: EntryAt(t, p.layer, p.entry, L.Symlink).Some?
    ensures forall p | p in t.work.hardLinks ::
              match EntryAt(t, p.layer, p.entry, L.HardLink)
              case Some(e) => IsCanonical(e.names.link)
              case None => false
  {
    PairsArePlaced(tables, work);
    forall p | p in t.work.symlinks ensures EntryAt(t, p.layer, p.entry, L.Symlink).Some? {
      var k :| 0 <= k < |t.work.symlinks| && t.work.symlinks[k] == p;
      SameLink(digests, tables, work, t, work.symlinks, t.work.symlinks, L.Symlink, k);
    }
    forall p | p in t.work.hardLinks
      ensures match EntryAt(t, p.layer, p.entry, L.HardLink)
              case Some(e) => IsCanonical(e.names.link)
              case None => false
    {
      var k :| 0 <= k < |t.work.hardLinks| && t.work.hardLinks[k] == p;
      SameLink(digests, tables, work, t, work.hardLinks, t.work.hardLinks, L.HardLink, k);
      assert work.hardLinks[k] in work.hardLinks;
    }
  }

  /** A reader accepts every table a stitch writes. */
  lemma StitchedChecks(digests: seq<Bytes>, tables: seq<Entries>, work: Work, t: Table)
    requires WorkHolds(tables, work) && |digests| == |tables| && IsStitched(digests, tables, work, t)
    requires RestHolds(tables, t.directories, t.xattrs)
    ensures Checks(t)
  {
    StitchedPathsCheck(digests, tables, work, t);
    StitchedLinksCheck(digests, tables, work, t);
    forall l | 0 <= l < |t.work.files| ensures FilesCheck(t, l, t.work.files[l]) {
      StitchedFilesCheck(digests, tables, work, t, l);
    }
  }

  /** Whether a table was stitched for this manifest and these layers. */
  predicate IsFor(t: Table, manifest: Bytes, digests: seq<Bytes>) {
    && t.manifest == manifest && |t.layers| == |digests|
    && forall l | 0 <= l < |digests| :: t.layers[l].digest == digests[l]
  }

  /** It is for the manifest and layers it was stitched for, and no others. */
  lemma IsForItsOwn(digests: seq<Bytes>, tables: seq<Entries>, work: Work, t: Table, m: Bytes, ds: seq<Bytes>)
    requires WorkHolds(tables, work) && |digests| == |tables| && IsStitched(digests, tables, work, t)
    ensures IsFor(t, m, ds) <==> m == t.manifest && ds == digests
  {
  }

  /** The same entries placed as one kind, in the same order, under the numbers
      the table gives them. */
  ghost predicate SamePairs(tables: seq<Entries>, pairs: seq<Pair>, t: Table, after: seq<Pair>, kind: L.Kind) {
    && |after| == |pairs|
    && forall k | 0 <= k < |pairs| ::
         && HoldsAs(tables, pairs[k].layer, pairs[k].entry, kind)
         && EntryAt(t, after[k].layer, after[k].entry, kind) == Some(tables[pairs[k].layer][pairs[k].entry])
  }

  ghost predicate SameFiles(tables: seq<Entries>, l: nat, files: seq<nat>, t: Table, after: seq<nat>) {
    && |after| == |files|
    && forall k | 0 <= k < |files| ::
         HoldsAs(tables, l, files[k], L.File) && EntryAt(t, l, after[k], L.File) == Some(tables[l][files[k]])
  }

  /** What a table places is what the work it was stitched from places: files,
      symlinks and hard links, each list in its order. */
  ghost predicate PlacesTheSame(tables: seq<Entries>, work: Work, t: Table) {
    && |t.work.files| == |work.files| == |tables|
    && (forall l | 0 <= l < |tables| :: SameFiles(tables, l, work.files[l].entries, t, t.work.files[l].entries))
    && SamePairs(tables, work.symlinks, t, t.work.symlinks, L.Symlink)
    && SamePairs(tables, work.hardLinks, t, t.work.hardLinks, L.HardLink)
  }

  lemma StitchedPlacesTheSame(digests: seq<Bytes>, tables: seq<Entries>, work: Work, t: Table)
    requires WorkHolds(tables, work) && |digests| == |tables| && IsStitched(digests, tables, work, t)
    ensures PlacesTheSame(tables, work, t)
  {
    PairsArePlaced(tables, work);
    forall l, k | 0 <= l < |tables| && 0 <= k < |work.files[l].entries|
      ensures HoldsAs(tables, l, work.files[l].entries[k], L.File)
      ensures EntryAt(t, l, t.work.files[l].entries[k], L.File) == Some(tables[l][work.files[l].entries[k]])
    {
      SameFile(digests, tables, work, t, l, k);
    }
    forall l | 0 <= l < |tables| ensures SameFiles(tables, l, work.files[l].entries, t, t.work.files[l].entries) {
      assert FilesRenumbered(tables, work, l, t.work.files[l].entries);
    }
    forall k | 0 <= k < |work.symlinks|
      ensures EntryAt(t, t.work.symlinks[k].layer, t.work.symlinks[k].entry, L.Symlink)
           == Some(tables[work.symlinks[k].layer][work.symlinks[k].entry])
    {
      SameLink(digests, tables, work, t, work.symlinks, t.work.symlinks, L.Symlink, k);
    }
    forall k | 0 <= k < |work.hardLinks|
      ensures EntryAt(t, t.work.hardLinks[k].layer, t.work.hardLinks[k].entry, L.HardLink)
           == Some(tables[work.hardLinks[k].layer][work.hardLinks[k].entry])
    {
      SameLink(digests, tables, work, t, work.hardLinks, t.work.hardLinks, L.HardLink, k);
    }
  }

  /** A stitched table written and read back is itself, and places the same
      entries in the same order as the work it was stitched from. */
  lemma StitchedIsThePlan(d: Deflate, digests: seq<Bytes>, tables: seq<Entries>, work: Work, t: Table)
    requires Undoes(d) && WorkHolds(tables, work) && |digests| == |tables| && IsStitched(digests, tables, work, t)
    requires RestHolds(tables, t.directories, t.xattrs)
    requires Fits(t) && |PutTable(t)| <= MAX_PLAIN && |d.pack(PutTable(t))| < Limit(8)
    ensures ReadBack(d, Written(d, t).value) == Some(t) && PlacesTheSame(tables, work, t)
  {
    StitchedChecks(digests, tables, work, t);
    WrittenIsReadBack(d, t);
    StitchedPlacesTheSame(digests, tables, work, t);
  }
}
