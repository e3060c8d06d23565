/** The table a resolved image is recorded in. */
module Rootfs {
  import opened Paths
  import opened Codec
  import L = Layers

  /** Which layer and which of its entries. */
  datatype Pair = Pair(layer: nat, entry: nat)

  datatype Layer = Layer(digest: Bytes, entries: seq<Entry>)

  datatype Directory = Directory(path: Bytes, mode: nat)

  datatype Files = Files(entries: seq<nat>)

  datatype Xattrs = Xattrs(layer: nat, path: Bytes, names: Bytes)

  /** What is placed, by the numbers its entries have: files layer by layer,
      then links. */
  datatype Work = Work(files: seq<Files>, symlinks: seq<Pair>, hardLinks: seq<Pair>)

  datatype Table = Table(
    manifest: Bytes, platform: Bytes, layers: seq<Layer>, directories: seq<Directory>, work: Work, xattrs: seq<Xattrs>)

  // ------------------------------------------------------------ the parts

  function PutLayer(l: Layer, rest: Bytes): Bytes {
    PutString(l.digest, PutList(l.entries, PutEntry, rest))
  }

  function TakeLayer(b: Bytes): Taken<Layer> {
    match TakeString(b)
    case None => None
    case Some((digest, after)) =>
      match TakeList(after, TakeEntry)
      case None => None
      case Some((entries, rest)) => Some((Layer(digest, entries), rest))
  }

  predicate LayerFits(l: Layer) {
    IsShort(l.digest) && |l.entries| < Limit(4) && forall e | e in l.entries :: CanBeRecorded(e)
  }

  lemma EntriesBack(entries: seq<Entry>, rest: Bytes)
    requires |entries| < Limit(4) && forall e | e in entries :: CanBeRecorded(e)
    ensures TakeList(PutList(entries, PutEntry, rest), TakeEntry) == Some((entries, rest))
    ensures |rest| < |PutList(entries, PutEntry, rest)|
  {
    forall e | e in entries ensures IsTakenBack(e, PutEntry, TakeEntry) {
      EntryIsTakenBack(e);
    }
    ListBack(entries, PutEntry, TakeEntry, rest);
    AllBack(entries, PutEntry, TakeEntry, rest);
  }

  lemma LayerIsTakenBack(l: Layer)
    requires LayerFits(l)
    ensures IsTakenBack(l, PutLayer, TakeLayer)
  {
    forall rest ensures TakesBack(l, PutLayer, TakeLayer, rest) {
      EntriesBack(l.entries, rest);
      StringBack(l.digest, PutList(l.entries, PutEntry, rest));
    }
  }

  function PutDirectory(d: Directory, rest: Bytes): Bytes {
    PutString(d.path, Put(d.mode, 4, rest))
  }

  function TakeDirectory(b: Bytes): Taken<Directory> {
    match TakeString(b)
    case None => None
    case Some((path, after)) =>
      match Take(after, 4)
      case None => None
      case Some((mode, rest)) => Some((Directory(path, mode), rest))
  }

  predicate DirectoryFits(d: Directory) {
    IsShort(d.path) && d.mode < Limit(4)
  }

  lemma DirectoryIsTakenBack(d: Directory)
    requires DirectoryFits(d)
    ensures IsTakenBack(d, PutDirectory, TakeDirectory)
  {
    forall rest ensures TakesBack(d, PutDirectory, TakeDirectory, rest) {
      NumberBack(d.mode, 4, rest);
      StringBack(d.path, Put(d.mode, 4, rest));
    }
  }

  function PutIndex(e: nat, rest: Bytes): Bytes {
    Put(e, 4, rest)
  }

  function TakeIndex(b: Bytes): Taken<nat> {
    Take(b, 4)
  }

  lemma IndexIsTakenBack(e: nat)
    requires e < Limit(4)
    ensures IsTakenBack(e, PutIndex, TakeIndex)
  {
    forall rest ensures TakesBack(e, PutIndex, TakeIndex, rest) {
      NumberBack(e, 4, rest);
    }
  }

  function PutFiles(f: Files, rest: Bytes): Bytes {
    PutList(f.entries, PutIndex, rest)
  }

  function TakeFiles(b: Bytes): Taken<Files> {
    match TakeList(b, TakeIndex)
    case None => None
    case Some((entries, rest)) => Some((Files(entries), rest))
  }

  predicate FilesFit(f: Files) {
    |f.entries| < Limit(4) && forall e | e in f.entries :: e < Limit(4)
  }

  lemma FilesIsTakenBack(f: Files)
    requires FilesFit(f)
    ensures IsTakenBack(f, PutFiles, TakeFiles)
  {
    forall e | e in f.entries ensures IsTakenBack(e, PutIndex, TakeIndex) {
      IndexIsTakenBack(e);
    }
    forall rest ensures TakesBack(f, PutFiles, TakeFiles, rest) {
      ListBack(f.entries, PutIndex, TakeIndex, rest);
      AllBack(f.entries, PutIndex, TakeIndex, rest);
    }
  }

  function PutPair(p: Pair, rest: Bytes): Bytes {
    Put(p.layer, 4, Put(p.entry, 4, rest))
  }

  function TakePair(b: Bytes): Taken<Pair> {
    match Take(b, 4)
    case None => None
    case Some((layer, after)) =>
      match Take(after, 4)
      case None => None
      case Some((entry, rest)) => Some((Pair(layer, entry), rest))
  }

  predicate PairFits(p: Pair) {
    p.layer < Limit(4) && p.entry < Limit(4)
  }

  lemma PairIsTakenBack(p: Pair)
    requires PairFits(p)
    ensures IsTakenBack(p, PutPair, TakePair)
  {
    forall rest ensures TakesBack(p, PutPair, TakePair, rest) {
      NumberBack(p.entry, 4, rest);
      NumberBack(p.layer, 4, Put(p.entry, 4, rest));
    }
  }

  function PutXattrs(x: Xattrs, rest: Bytes): Bytes {
    Put(x.layer, 4, PutString(x.path, PutString(x.names, rest)))
  }

  function TakeXattrs(b: Bytes): Taken<Xattrs> {
    match Take(b, 4)
    case None => None
    case Some((layer, b1)) =>
      match TakeString(b1)
      case None => None
      case Some((path, b2)) =>
        match TakeString(b2)
        case None => None
        case Some((names, rest)) => Some((Xattrs(layer, path, names), rest))
  }

  predicate XattrsFit(x: Xattrs) {
    x.layer < Limit(4) && IsShort(x.path) && IsShort(x.names)
  }

  lemma XattrsIsTakenBack(x: Xattrs)
    requires XattrsFit(x)
    ensures IsTakenBack(x, PutXattrs, TakeXattrs)
  {
    forall rest ensures TakesBack(x, PutXattrs, TakeXattrs, rest) {
      StringBack(x.names, rest);
      StringBack(x.path, PutString(x.names, rest));
      NumberBack(x.layer, 4, PutString(x.path, PutString(x.names, rest)));
    }
  }

  // ------------------------------------------------------------ the whole table

  /** Each layer's files, as many lists as there are layers, then the links. */
  function PutWork(w: Work, rest: Bytes): Bytes {
    PutAll(w.files, PutFiles, PutList(w.symlinks, PutPair, PutList(w.hardLinks, PutPair, rest)))
  }

  function TakeWork(b: Bytes, layers: nat): Taken<Work> {
    match TakeAll(layers, b, TakeFiles)
    case None => None
    case Some((files, b1)) =>
      match TakeList(b1, TakePair)
      case None => None
      case Some((symlinks, b2)) =>
        match TakeList(b2, TakePair)
        case None => None
        case Some((hardLinks, rest)) => Some((Work(files, symlinks, hardLinks), rest))
  }

  predicate WorkFits(w: Work) {
    && (forall f | f in w.files :: FilesFit(f))
    && |w.symlinks| < Limit(4) && (forall p | p in w.symlinks :: PairFits(p))
    && |w.hardLinks| < Limit(4) && forall p | p in w.hardLinks :: PairFits(p)
  }

  lemma PairsBack(pairs: seq<Pair>, rest: Bytes)
    requires |pairs| < Limit(4) && forall p | p in pairs :: PairFits(p)
    ensures TakeList(PutList(pairs, PutPair, rest), TakePair) == Some((pairs, rest))
  {
    forall p | p in pairs ensures IsTakenBack(p, PutPair, TakePair) {
      PairIsTakenBack(p);
    }
    ListBack(pairs, PutPair, TakePair, rest);
  }

  lemma WorkBack(w: Work, rest: Bytes)
    requires WorkFits(w)
    ensures TakeWork(PutWork(w, rest), |w.files|) == Some((w, rest))
  {
    forall f | f in w.files ensures IsTakenBack(f, PutFiles, TakeFiles) {
      FilesIsTakenBack(f);
    }
    var hardLinks := PutList(w.hardLinks, PutPair, rest);
    var symlinks := PutList(w.symlinks, PutPair, hardLinks);
    PairsBack(w.hardLinks, rest);
    PairsBack(w.symlinks, hardLinks);
    AllBack(w.files, PutFiles, TakeFiles, symlinks);
  }

  function PutTable(t: Table): Bytes {
    PutString(t.manifest, PutString(t.platform, PutList(t.layers, PutLayer, PutList(t.directories, PutDirectory,
      PutWork(t.work, PutList(t.xattrs, PutXattrs, []))))))
  }

  function TakeLast(b: Bytes, manifest: Bytes, platform: Bytes, layers: seq<Layer>,
                    directories: seq<Directory>): Option<Table> {
    match TakeWork(b, |layers|)
    case None => None
    case Some((work, after)) =>
      match TakeList(after, TakeXattrs)
      case None => None
      case Some((xattrs, rest)) =>
        if rest != [] then None else Some(Table(manifest, platform, layers, directories, work, xattrs))
  }

  function TakeTable(b: Bytes): Option<Table> {
    match TakeString(b)
    case None => None
    case Some((manifest, b1)) =>
      match TakeString(b1)
      case None => None
      case Some((platform, b2)) =>
        match TakeList(b2, TakeLayer)
        case None => None
        case Some((layers, b3)) =>
          match TakeList(b3, TakeDirectory)
          case None => None
          case Some((directories, b4)) => TakeLast(b4, manifest, platform, layers, directories)
  }

  predicate ImageFits(t: Table) {
    && |t.layers| < Limit(4) && (forall l | l in t.layers :: LayerFits(l))
    && |t.directories| < Limit(4) && (forall d | d in t.directories :: DirectoryFits(d))
  }

  /** What can be written and read back: every number of its width, every name
      and list within the length in front of it, and a list of files for each
      layer. */
  predicate Fits(t: Table) {
    && IsShort(t.manifest) && IsShort(t.platform) && ImageFits(t) && WorkFits(t.work) && |t.work.files| == |t.layers|
    && |t.xattrs| < Limit(4) && forall x | x in t.xattrs :: XattrsFit(x)
  }

  lemma LayersBack(layers: seq<Layer>, rest: Bytes)
    requires |layers| < Limit(4) && forall l | l in layers :: LayerFits(l)
    ensures TakeList(PutList(layers, PutLayer, rest), TakeLayer) == Some((layers, rest))
  {
    forall l | l in layers ensures IsTakenBack(l, PutLayer, TakeLayer) {
      LayerIsTakenBack(l);
    }
    ListBack(layers, PutLayer, TakeLayer, rest);
  }

  lemma DirectoriesBack(dirs: seq<Directory>, rest: Bytes)
    requires |dirs| < Limit(4) && forall d | d in dirs :: DirectoryFits(d)
    ensures TakeList(PutList(dirs, PutDirectory, rest), TakeDirectory) == Some((dirs, rest))
  {
    forall d | d in dirs ensures IsTakenBack(d, PutDirectory, TakeDirectory) {
      DirectoryIsTakenBack(d);
    }
    ListBack(dirs, PutDirectory, TakeDirectory, rest);
  }

  lemma XattrsBack(xs: seq<Xattrs>, rest: Bytes)
    requires |xs| < Limit(4) && forall x | x in xs :: XattrsFit(x)
    ensures TakeList(PutList(xs, PutXattrs, rest), TakeXattrs) == Some((xs, rest))
  {
    forall x | x in xs ensures IsTakenBack(x, PutXattrs, TakeXattrs) {
      XattrsIsTakenBack(x);
    }
    ListBack(xs, PutXattrs, TakeXattrs, rest);
  }

  lemma LastBack(t: Table)
    requires Fits(t)
    ensures TakeLast(PutWork(t.work, PutList(t.xattrs, PutXattrs, [])), t.manifest, t.platform, t.layers,
            t.directories) == Some(t)
  {
    XattrsBack(t.xattrs, []);
    WorkBack(t.work, PutList(t.xattrs, PutXattrs, []));
  }

  /** A table that fits is read back as it was written. */
  lemma TableBack(t: Table)
    requires Fits(t)
    ensures TakeTable(PutTable(t)) == Some(t)
  {
    var work := PutWork(t.work, PutList(t.xattrs, PutXattrs, []));
    var dirs := PutList(t.directories, PutDirectory, work);
    var layers := PutList(t.layers, PutLayer, dirs);
    LastBack(t);
    DirectoriesBack(t.directories, work);
    LayersBack(t.layers, dirs);
    StringBack(t.platform, layers);
    StringBack(t.manifest, PutString(t.platform, layers));
  }

  // ------------------------------------------------------------ the frame around it

  /** Deflating and inflating, which undo each other. */
  datatype Deflate = Deflate(pack: Bytes -> Bytes, unpack: Bytes -> Option<Bytes>)

  ghost predicate Undoes(d: Deflate) {
    forall b: Bytes :: d.unpack(d.pack(b)) == Some(b)
  }

  const MAGIC: Bytes := [79, 84, 82, 49]
  const MAX_PLAIN := 0x80_0000 * 512

  function PutFramed(d: Deflate, body: Bytes): Bytes {
    MAGIC + Put(|body|, 8, Put(|d.pack(body)|, 8, d.pack(body)))
  }

  function TakeFramed(d: Deflate, b: Bytes): Option<Bytes> {
    if |b| < 4 || b[..4] != MAGIC then None
    else
      match Take(b[4..], 8)
      case None => None
      case Some((plain, b1)) =>
        match Take(b1, 8)
        case None => None
        case Some((packed, b2)) =>
          if plain > MAX_PLAIN then None
          else
            match d.unpack(if packed <= |b2| then b2[..packed] else b2)
            case Some(body) => if |body| == plain then Some(body) else None
            case None => None
  }

  lemma FramedBack(d: Deflate, body: Bytes)
    requires Undoes(d) && |body| <= MAX_PLAIN && |d.pack(body)| < Limit(8)
    ensures TakeFramed(d, PutFramed(d, body)) == Some(body)
  {
    var packed := d.pack(body);
    assert Limit(8) == 0x1_0000_0000_0000_0000;
    NumberBack(|packed|, 8, packed);
    NumberBack(|body|, 8, Put(|packed|, 8, packed));
    var inner := Put(|body|, 8, Put(|packed|, 8, packed));
    assert (MAGIC + inner)[..4] == MAGIC && (MAGIC + inner)[4..] == inner;
    assert packed[..|packed|] == packed;
  }

  // ------------------------------------------------------------ what a reader checks

  function EntryAt(t: Table, layer: nat, entry: nat, kind: L.Kind): Option<Entry> {
    if layer < |t.layers| && entry < |t.layers[layer].entries| && t.layers[layer].entries[entry].kind == kind
    then Some(t.layers[layer].entries[entry]) else None
  }

  function OffsetAt(t: Table, layer: nat, entry: nat): nat {
    match EntryAt(t, layer, entry, L.File)
    case Some(e) => e.numbers.offset
    case None => 0
  }

  /** A path that reads back as itself. */
  predicate IsCanonical(path: Bytes) {
    match SafeComponents(path)
    case Some(p) => Spell(p) == path
    case None => false
  }

  const ROOT_PATH: Bytes := [46]

  predicate FilesCheck(t: Table, l: nat, f: Files) {
    && (forall k | 0 <= k < |f.entries| :: EntryAt(t, l, f.entries[k], L.File).Some?)
    && forall j, k | 0 <= j < k < |f.entries| :: OffsetAt(t, l, f.entries[j]) <= OffsetAt(t, l, f.entries[k])
  }

  predicate PathsCheck(t: Table) {
    && (forall l | l in t.layers :: forall e | e in l.entries :: IsCanonical(e.names.path))
    && forall d | d in t.directories :: d.path == ROOT_PATH || IsCanonical(d.path)
  }

  /** What a stitch could have written: everything named is there and of its
      kind, files in stream order, and every path under the rootfs. */
  predicate Checks(t: Table) {
    && (forall l | 0 <= l < |t.work.files| :: FilesCheck(t, l, t.work.files[l]))
    && (forall p | p in t.work.symlinks :: EntryAt(t, p.layer, p.entry, L.Symlink).Some?)
    && (forall p | p in t.work.hardLinks ::
          match EntryAt(t, p.layer, p.entry, L.HardLink) case Some(e) => IsCanonical(e.names.link) case None => false)
    && (forall x | x in t.xattrs :: x.layer < |t.layers|)
    && PathsCheck(t)
  }

  /** The check as it is made, one list after another. */
  method Check(t: Table) returns (ok: bool)
    ensures ok <==> Checks(t)
  {
    for l := 0 to |t.work.files|
      invariant forall i | 0 <= i < l :: FilesCheck(t, i, t.work.files[i])
    {
      var files, last: nat := t.work.files[l].entries, 0;
      for k := 0 to |files|
        invariant forall i | 0 <= i < k :: EntryAt(t, l, files[i], L.File).Some? && OffsetAt(t, l, files[i]) <= last
        invariant forall i, j | 0 <= i < j < k :: OffsetAt(t, l, files[i]) <= OffsetAt(t, l, files[j])
        invariant last == if k > 0 then OffsetAt(t, l, files[k - 1]) else 0
      {
        var file := EntryAt(t, l, files[k], L.File);
        if file.None? { return false; }
        if file.value.numbers.offset < last {
          assert OffsetAt(t, l, files[k]) < OffsetAt(t, l, files[k - 1]);
          return false;
        }
        last := file.value.numbers.offset;
      }
    }
    for k := 0 to |t.work.symlinks|
      invariant forall i | 0 <= i < k :: EntryAt(t, t.work.symlinks[i].layer, t.work.symlinks[i].entry, L.Symlink).Some?
    {
      if EntryAt(t, t.work.symlinks[k].layer, t.work.symlinks[k].entry, L.Symlink).None? { return false; }
    }
    for k := 0 to |t.work.hardLinks|
      invariant forall i | 0 <= i < k ::
                  match EntryAt(t, t.work.hardLinks[i].layer, t.work.hardLinks[i].entry, L.HardLink)
                  case Some(e) => IsCanonical(e.names.link) case None => false
    {
      var link := EntryAt(t, t.work.hardLinks[k].layer, t.work.hardLinks[k].entry, L.HardLink);
      if link.None? || !IsCanonical(link.value.names.link) { return false; }
    }
    ok := (forall x | x in t.xattrs :: x.layer < |t.layers|) && PathsCheck(t);
  }

  // ------------------------------------------------------------ out and back

  function Written(d: Deflate, t: Table): Option<Bytes> {
    if Fits(t) then Some(PutFramed(d, PutTable(t))) else None
  }

  function ReadBack(d: Deflate, b: Bytes): Option<Table> {
    match TakeFramed(d, b)
    case None => None
    case Some(body) =>
      match TakeTable(body)
      case None => None
      case Some(t) => if Checks(t) then Some(t) else None
  }

  /** A table within its length limits is read back as it was written just when
      it is one a stitch could have written. */
  lemma WrittenIsReadBack(d: Deflate, t: Table)
    requires Undoes(d) && Fits(t) && |PutTable(t)| <= MAX_PLAIN && |d.pack(PutTable(t))| < Limit(8)
    ensures ReadBack(d, Written(d, t).value) == if Checks(t) then Some(t) else None
  {
    TableBack(t);
    FramedBack(d, PutTable(t));
  }
}
