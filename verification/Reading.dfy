/** What a reader accepts is what a writer could have written, byte for byte, and
    what an accepted table can be trusted with. */
module Reading {
  import opened Paths
  import opened Codec
  import opened Rootfs
  import L = Layers

  // ------------------------------------------------------------ numbers and names

  /** The bytes of a number count for more the further on they are. */
  lemma NumbersAreLittleEndian(b: Bytes)
    ensures |b| >= 2 ==> Take(b, 2) == Some((b[0] as nat + 0x100 * b[1] as nat, b[2..]))
    ensures |b| >= 4 ==> Take(b, 4) == Some((b[0] as nat + 0x100 * b[1] as nat + 0x1_0000 * b[2] as nat
                                             + 0x100_0000 * b[3] as nat, b[4..]))
  {
    if |b| >= 2 {
      assert Take(b[1..][1..], 0) == Some((0, b[2..]));
      assert Take(b[1..], 1) == Some((b[1] as nat, b[2..]));
    }
    if |b| >= 4 {
      assert Take(b[1..][1..][1..][1..], 0) == Some((0, b[4..]));
      assert Take(b[1..][1..][1..], 1) == Some((b[3] as nat, b[4..]));
      assert Take(b[1..][1..], 2) == Some((b[2] as nat + 0x100 * b[3] as nat, b[4..]));
      assert Take(b[1..], 3) == Some((b[1] as nat + 0x100 * b[2] as nat + 0x1_0000 * b[3] as nat, b[4..]));
    }
  }

  /** Whatever is taken is of its width, and putting it back gives the bytes it
      was taken from. */
  ghost predicate PutsBack<X>(put: (X, Bytes) -> Bytes, take: Bytes -> Taken<X>, fits: X -> bool, b: Bytes) {
    match take(b)
    case Some((x, rest)) => fits(x) && put(x, rest) == b
    case None => true
  }

  ghost predicate IsPutBack<X>(put: (X, Bytes) -> Bytes, take: Bytes -> Taken<X>, fits: X -> bool) {
    forall b :: PutsBack(put, take, fits, b)
  }

  lemma {:induction false} NumberPutBack(b: Bytes, width: nat)
    ensures match Take(b, width)
            case Some((n, rest)) => n < Limit(width) && Put(n, width, rest) == b
            case None => true
  {
    if width > 0 && b != [] && Take(b[1..], width - 1).Some? {
      NumberPutBack(b[1..], width - 1);
      var (high, rest) := Take(b[1..], width - 1).value;
      var n := b[0] as nat + 0x100 * high;
      assert n % 0x100 == b[0] as nat && n / 0x100 == high;
      assert b == [b[0]] + b[1..];
    }
  }

  lemma StringPutBack(b: Bytes)
    ensures PutsBack(PutString, TakeString, IsShort, b)
  {
    NumberPutBack(b, 2);
    assert Limit(2) == 0x1_0000;
    if Take(b, 2).Some? {
      var (len, rest) := Take(b, 2).value;
      if len <= |rest| { assert rest == rest[..len] + rest[len..]; }
    }
  }

  // ------------------------------------------------------------ lists

  predicate AllFit<X(==)>(xs: seq<X>, fits: X -> bool) {
    forall x | x in xs :: fits(x)
  }

  lemma {:induction false} AllPutBack<X>(n: nat, b: Bytes, put: (X, Bytes) -> Bytes, take: Bytes -> Taken<X>,
                                         fits: X -> bool)
    requires IsPutBack(put, take, fits)
    ensures match TakeAll(n, b, take)
            case Some((xs, rest)) => |xs| == n && AllFit(xs, fits) && PutAll(xs, put, rest) == b
            case None => true
  {
    if n > 0 && take(b).Some? {
      assert PutsBack(put, take, fits, b);
      var (x, after) := take(b).value;
      AllPutBack(n - 1, after, put, take, fits);
      if TakeAll(n - 1, after, take).Some? {
        var xs := TakeAll(n - 1, after, take).value.0;
        assert ([x] + xs)[1..] == xs;
      }
    }
  }

  lemma ListPutBack<X>(b: Bytes, put: (X, Bytes) -> Bytes, take: Bytes -> Taken<X>, fits: X -> bool)
    requires IsPutBack(put, take, fits)
    ensures match TakeList(b, take)
            case Some((xs, rest)) => |xs| < Limit(4) && AllFit(xs, fits) && PutList(xs, put, rest) == b
            case None => true
  {
    NumberPutBack(b, 4);
    if Take(b, 4).Some? {
      var (count, rest) := Take(b, 4).value;
      AllPutBack(count, rest, put, take, fits);
    }
  }

  // ------------------------------------------------------------ entries

  lemma NumbersPutBack(b: Bytes)
    ensures PutsBack(PutNumbers, TakeNumbers, NumbersFit, b)
  {
    NumberPutBack(b, 4);
    if Take(b, 4).Some? {
      var b1 := Take(b, 4).value.1;
      NumberPutBack(b1, 8);
      if Take(b1, 8).Some? {
        var b2 := Take(b1, 8).value.1;
        NumberPutBack(b2, 8);
        if Take(b2, 8).Some? { NumberPutBack(Take(b2, 8).value.1, 8); }
      }
    }
  }

  lemma NamesPutBack(b: Bytes)
    ensures PutsBack(PutNames, TakeNames, NamesFit, b)
  {
    StringPutBack(b);
    if TakeString(b).Some? {
      var b1 := TakeString(b).value.1;
      StringPutBack(b1);
      if TakeString(b1).Some? { StringPutBack(TakeString(b1).value.1); }
    }
  }

  lemma HashPutBack(b: Bytes, kind: L.Kind)
    ensures match TakeHash(b, kind)
            case Some((hash, rest)) => HashFits(kind, hash) && PutHash(hash, rest) == b
            case None => true
  {
    if kind.IsFile() && HASH_BYTES <= |b| {
      assert b == b[..HASH_BYTES] + b[HASH_BYTES..];
    }
  }

  lemma KindPutBack(b: Bytes)
    ensures match TakeKind(b) case Some((kind, rest)) => [Code(kind)] + rest == b case None => true
  {
    if b != [] { assert b == [b[0]] + b[1..]; }
  }

  lemma EntryPutBack(b: Bytes)
    ensures PutsBack(PutEntry, TakeEntry, CanBeRecorded, b)
  {
    KindPutBack(b);
    if TakeKind(b).Some? {
      var (kind, b1) := TakeKind(b).value;
      NumbersPutBack(b1);
      if TakeNumbers(b1).Some? {
        var b2 := TakeNumbers(b1).value.1;
        NamesPutBack(b2);
        if TakeNames(b2).Some? { HashPutBack(TakeNames(b2).value.1, kind); }
      }
    }
  }

  // ------------------------------------------------------------ the table

  lemma LayerPutBack(b: Bytes)
    ensures PutsBack(PutLayer, TakeLayer, LayerFits, b)
  {
    StringPutBack(b);
    if TakeString(b).Some? {
      forall c ensures PutsBack(PutEntry, TakeEntry, CanBeRecorded, c) {
        EntryPutBack(c);
      }
      ListPutBack(TakeString(b).value.1, PutEntry, TakeEntry, CanBeRecorded);
    }
  }

  lemma DirectoryPutBack(b: Bytes)
    ensures PutsBack(PutDirectory, TakeDirectory, DirectoryFits, b)
  {
    StringPutBack(b);
    if TakeString(b).Some? { NumberPutBack(TakeString(b).value.1, 4); }
  }

  predicate IndexFits(e: nat) {
    e < Limit(4)
  }

  lemma FilesPutBack(b: Bytes)
    ensures PutsBack(PutFiles, TakeFiles, FilesFit, b)
  {
    forall c ensures PutsBack(PutIndex, TakeIndex, IndexFits, c) {
      NumberPutBack(c, 4);
    }
    ListPutBack(b, PutIndex, TakeIndex, IndexFits);
    if TakeFiles(b).Some? {
      var f := TakeFiles(b).value.0;
      assert forall e | e in f.entries :: IndexFits(e);
    }
  }

  lemma PairPutBack(b: Bytes)
    ensures PutsBack(PutPair, TakePair, PairFits, b)
  {
    NumberPutBack(b, 4);
    if Take(b, 4).Some? { NumberPutBack(Take(b, 4).value.1, 4); }
  }

  lemma XattrsPutBack(b: Bytes)
    ensures PutsBack(PutXattrs, TakeXattrs, XattrsFit, b)
  {
    NumberPutBack(b, 4);
    if Take(b, 4).Some? {
      var b1 := Take(b, 4).value.1;
      StringPutBack(b1);
      if TakeString(b1).Some? { StringPutBack(TakeString(b1).value.1); }
    }
  }

  lemma PairsPutBack(b: Bytes)
    ensures match TakeList(b, TakePair)
            case Some((pairs, rest)) =>
              |pairs| < Limit(4) && AllFit(pairs, PairFits) && PutList(pairs, PutPair, rest) == b
            case None => true
  {
    forall c ensures PutsBack(PutPair, TakePair, PairFits, c) {
      PairPutBack(c);
    }
    ListPutBack(b, PutPair, TakePair, PairFits);
  }

  lemma WorkPutBack(b: Bytes, layers: nat)
    ensures match TakeWork(b, layers)
            case Some((work, rest)) => |work.files| == layers && WorkFits(work) && PutWork(work, rest) == b
            case None => true
  {
    forall c ensures PutsBack(PutFiles, TakeFiles, FilesFit, c) {
      FilesPutBack(c);
    }
    AllPutBack(layers, b, PutFiles, TakeFiles, FilesFit);
    if TakeAll(layers, b, TakeFiles).Some? {
      var b1 := TakeAll(layers, b, TakeFiles).value.1;
      PairsPutBack(b1);
      if TakeList(b1, TakePair).Some? { PairsPutBack(TakeList(b1, TakePair).value.1); }
    }
  }

  lemma LayersPutBack(b: Bytes)
    ensures match TakeList(b, TakeLayer)
            case Some((layers, rest)) =>
              |layers| < Limit(4) && AllFit(layers, LayerFits) && PutList(layers, PutLayer, rest) == b
            case None => true
  {
    forall c ensures PutsBack(PutLayer, TakeLayer, LayerFits, c) {
      LayerPutBack(c);
    }
    ListPutBack(b, PutLayer, TakeLayer, LayerFits);
  }

  lemma DirectoriesPutBack(b: Bytes)
    ensures match TakeList(b, TakeDirectory)
            case Some((dirs, rest)) =>
              |dirs| < Limit(4) && AllFit(dirs, DirectoryFits) && PutList(dirs, PutDirectory, rest) == b
            case None => true
  {
    forall c ensures PutsBack(PutDirectory, TakeDirectory, DirectoryFits, c) {
      DirectoryPutBack(c);
    }
    ListPutBack(b, PutDirectory, TakeDirectory, DirectoryFits);
  }

  lemma XattrsListPutBack(b: Bytes)
    ensures match TakeList(b, TakeXattrs)
            case Some((xs, rest)) => |xs| < Limit(4) && AllFit(xs, XattrsFit) && PutList(xs, PutXattrs, rest) == b
            case None => true
  {
    forall c ensures PutsBack(PutXattrs, TakeXattrs, XattrsFit, c) {
      XattrsPutBack(c);
    }
    ListPutBack(b, PutXattrs, TakeXattrs, XattrsFit);
  }

  predicate EndFits(t: Table) {
    WorkFits(t.work) && |t.work.files| == |t.layers| && |t.xattrs| < Limit(4) && AllFit(t.xattrs, XattrsFit)
  }

  lemma LastPutBack(b: Bytes, manifest: Bytes, platform: Bytes, layers: seq<Layer>, directories: seq<Directory>)
    ensures match TakeLast(b, manifest, platform, layers, directories)
            case Some(t) =>
              && t.manifest == manifest && t.platform == platform && t.layers == layers && t.directories == directories
              && EndFits(t) && PutWork(t.work, PutList(t.xattrs, PutXattrs, [])) == b
            case None => true
  {
    WorkPutBack(b, |layers|);
    if TakeWork(b, |layers|).Some? { XattrsListPutBack(TakeWork(b, |layers|).value.1); }
  }

  /** The bytes a table is read from are the bytes it is written as. None but
      those of a table that fits are read at all: nothing is left over, and no
      length says more than there is. */
  lemma TablePutBack(b: Bytes)
    ensures TakeTable(b).Some? <==> exists t :: Fits(t) && PutTable(t) == b
    ensures TakeTable(b).Some? ==> Fits(TakeTable(b).value) && PutTable(TakeTable(b).value) == b
  {
    if TakeTable(b).Some? {
      TablePutsBack(b);
    }
    if t :| Fits(t) && PutTable(t) == b {
      TableBack(t);
    }
  }

  lemma TablePutsBack(b: Bytes)
    requires TakeTable(b).Some?
    ensures Fits(TakeTable(b).value) && PutTable(TakeTable(b).value) == b
  {
    StringPutBack(b);
    var (manifest, b1) := TakeString(b).value;
    StringPutBack(b1);
    var (platform, b2) := TakeString(b1).value;
    LayersPutBack(b2);
    var (layers, b3) := TakeList(b2, TakeLayer).value;
    DirectoriesPutBack(b3);
    var (directories, b4) := TakeList(b3, TakeDirectory).value;
    LastPutBack(b4, manifest, platform, layers, directories);
  }

  // ------------------------------------------------------------ what is accepted

  /** The spelling of names under the rootfs: none empty, none `.` or `..`. */
  ghost predicate IsUnderTheRootfs(path: Bytes) {
    exists p :: Canonical(p) && path == Spell(p)
  }

  ghost predicate HoldsEntry(t: Table, layer: nat, entry: nat, kind: L.Kind) {
    layer < |t.layers| && entry < |t.layers[layer].entries| && t.layers[layer].entries[entry].kind == kind
  }

  function OffsetIn(t: Table, l: nat, entry: nat): nat {
    if l < |t.layers| && entry < |t.layers[l].entries| then t.layers[l].entries[entry].numbers.offset else 0
  }

  /** The layer holds each of these files, in stream order. */
  ghost predicate FilesCanBeTrusted(t: Table, l: nat, files: seq<nat>) {
    && (forall k | 0 <= k < |files| :: HoldsEntry(t, l, files[k], L.File))
    && forall j, k | 0 <= j < k < |files| :: OffsetIn(t, l, files[j]) <= OffsetIn(t, l, files[k])
  }

  ghost predicate LinkCanBeTrusted(t: Table, p: Pair) {
    HoldsEntry(t, p.layer, p.entry, L.HardLink)
    && IsUnderTheRootfs(t.layers[p.layer].entries[p.entry].names.link)
  }

  ghost predicate PathsCanBeTrusted(t: Table) {
    && (forall l, e | 0 <= l < |t.layers| && 0 <= e < |t.layers[l].entries| ::
          IsUnderTheRootfs(t.layers[l].entries[e].names.path))
    && forall d | d in t.directories :: d.path == Spell(L.ROOT_ENTRY) || IsUnderTheRootfs(d.path)
  }

  /** What is placed from a table is there, each thing of its kind, and nothing in
      it is spelled so as to lead out of the rootfs. */
  ghost predicate CanBeTrusted(t: Table) {
    && (forall l | 0 <= l < |t.work.files| :: FilesCanBeTrusted(t, l, t.work.files[l].entries))
    && (forall p | p in t.work.symlinks :: HoldsEntry(t, p.layer, p.entry, L.Symlink))
    && (forall p | p in t.work.hardLinks :: LinkCanBeTrusted(t, p))
    && PathsCanBeTrusted(t) && forall x | x in t.xattrs :: x.layer < |t.layers|
  }

  lemma CanonicalIsUnder(path: Bytes)
    ensures IsCanonical(path) <==> IsUnderTheRootfs(path)
  {
    SafeIsCanonical(path);
    if p :| Canonical(p) && path == Spell(p) {
      CanonicalFormIsFixed(p);
    }
  }

  lemma FilesCheckMeans(t: Table, l: nat, f: Files)
    ensures FilesCheck(t, l, f) <==> FilesCanBeTrusted(t, l, f.entries)
  {
    if forall k | 0 <= k < |f.entries| :: HoldsEntry(t, l, f.entries[k], L.File) {
      assert forall k | 0 <= k < |f.entries| :: OffsetAt(t, l, f.entries[k]) == OffsetIn(t, l, f.entries[k]);
    } else {
      var k :| 0 <= k < |f.entries| && !HoldsEntry(t, l, f.entries[k], L.File);
      assert EntryAt(t, l, f.entries[k], L.File).None?;
    }
  }

  lemma PathsCheckMeans(t: Table)
    ensures PathsCheck(t) <==> PathsCanBeTrusted(t)
  {
    forall path ensures IsCanonical(path) <==> IsUnderTheRootfs(path) {
      CanonicalIsUnder(path);
    }
    if PathsCheck(t) {
      forall l, e | 0 <= l < |t.layers| && 0 <= e < |t.layers[l].entries|
        ensures IsUnderTheRootfs(t.layers[l].entries[e].names.path)
      {
        assert t.layers[l] in t.layers && t.layers[l].entries[e] in t.layers[l].entries;
      }
    }
  }

  lemma LinkCheckMeans(t: Table, p: Pair)
    ensures LinkCanBeTrusted(t, p) <==>
              match EntryAt(t, p.layer, p.entry, L.HardLink)
              case Some(e) => IsCanonical(e.names.link)
              case None => false
  {
    if HoldsEntry(t, p.layer, p.entry, L.HardLink) { CanonicalIsUnder(t.layers[p.layer].entries[p.entry].names.link); }
  }

  /** The check accepts exactly the tables that can be trusted. */
  lemma ChecksMeans(t: Table)
    ensures Checks(t) <==> CanBeTrusted(t)
  {
    forall l | 0 <= l < |t.work.files|
      ensures FilesCheck(t, l, t.work.files[l]) <==> FilesCanBeTrusted(t, l, t.work.files[l].entries)
    {
      FilesCheckMeans(t, l, t.work.files[l]);
    }
    forall p: Pair
      ensures LinkCanBeTrusted(t, p) <==>
                match EntryAt(t, p.layer, p.entry, L.HardLink)
                case Some(e) => IsCanonical(e.names.link)
                case None => false
    {
      LinkCheckMeans(t, p);
    }
    PathsCheckMeans(t);
  }

  /** The frame as it is laid out: the magic, both lengths in eight bytes, and what
      inflates to the body. */
  ghost predicate IsFrameOf(d: Deflate, b: Bytes, body: Bytes, packed: Bytes, length: nat) {
    && b == MAGIC + Put(|body|, 8, Put(length, 8, packed)) && |body| <= MAX_PLAIN && length < Limit(8)
    && d.unpack(if length <= |packed| then packed[..length] else packed) == Some(body)
  }

  lemma FramePutBack(d: Deflate, b: Bytes)
    ensures TakeFramed(d, b).Some? ==> exists packed, length :: IsFrameOf(d, b, TakeFramed(d, b).value, packed, length)
  {
    if TakeFramed(d, b).Some? {
      NumberPutBack(b[4..], 8);
      var (plain, b1) := Take(b[4..], 8).value;
      NumberPutBack(b1, 8);
      var (length, packed) := Take(b1, 8).value;
      assert b == b[..4] + b[4..];
      assert IsFrameOf(d, b, TakeFramed(d, b).value, packed, length);
    }
  }

  /** Whatever the bytes and whoever wrote them, a table read from them can be
      trusted, and they hold that table and nothing else. */
  lemma WhatIsReadCanBeTrusted(d: Deflate, b: Bytes)
    requires ReadBack(d, b).Some?
    ensures var t := ReadBack(d, b).value;
            && CanBeTrusted(t) && Fits(t)
            && exists packed, length :: IsFrameOf(d, b, PutTable(t), packed, length)
  {
    FramePutBack(d, b);
    TablePutBack(TakeFramed(d, b).value);
    ChecksMeans(ReadBack(d, b).value);
  }

  /** And a table that can be trusted is never refused. */
  lemma NothingTrustedIsRefused(d: Deflate, t: Table)
    requires Undoes(d) && Fits(t) && |PutTable(t)| <= MAX_PLAIN && |d.pack(PutTable(t))| < Limit(8)
    ensures ReadBack(d, Written(d, t).value) == if CanBeTrusted(t) then Some(t) else None
  {
    WrittenIsReadBack(d, t);
    ChecksMeans(t);
  }
}
