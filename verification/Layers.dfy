/** What a layer's entry table holds, and the markers among it. */
module Layers {
  import opened Paths

  datatype Kind = File | Directory | Symlink | HardLink | Sparse | Unsupported {
    /** Both ways of storing a regular file leave one. */
    predicate IsFile() {
      File? || Sparse?
    }
  }

  /** An entry as its layer spells it. */
  datatype RawEntry = RawEntry(kind: Kind, path: Bytes, link: Bytes, offset: nat, size: nat)

  /** The same, with its path read once and for all. `target` is what a hard
      link names, read as an entry path; a symlink keeps the spelling it had in
      `link`, since it is followed from where it stands. */
  datatype Entry = Entry(kind: Kind, path: Path, link: Bytes, target: Path, offset: nat, size: nat)

  type Table = seq<Entry>
  type Tables = seq<Table>

  /** What a layer's name for the rootfs, `.` or `/`, becomes. */
  const ROOT_ENTRY: Path := [CURRENT_DIR]

  lemma RootEntryIsNotCanonical()
    ensures !Canonical(ROOT_ENTRY)
  {
    assert !Ordinary(ROOT_ENTRY[0]);
  }

  /** Which layer and which of its entries. */
  datatype Owner = Owner(layer: nat, entry: nat) {
    predicate Precedes(other: Owner) {
      layer < other.layer || (layer == other.layer && entry < other.entry)
    }
  }

  predicate Holds(tables: Tables, owner: Owner) {
    owner.layer < |tables| && owner.entry < |tables[owner.layer]|
  }

  function At(tables: Tables, owner: Owner): Entry
    requires Holds(tables, owner)
  {
    tables[owner.layer][owner.entry]
  }

  ghost predicate PathsNamed(tables: Tables) {
    forall o: Owner | Holds(tables, o) :: At(tables, o).path != []
  }

  /** A point of a pass over the layers: every layer below `layer` is done, and
      the first `entries` of that one. */
  predicate IsPoint(tables: Tables, layer: nat, entries: nat) {
    layer < |tables| && entries <= |tables[layer]|
  }

  // ------------------------------------------------------------ canonicalise

  predicate WellFormed(entry: Entry) {
    && (Canonical(entry.path) || (entry.path == ROOT_ENTRY && entry.kind == Directory))
    && (entry.kind == HardLink ==> Canonical(entry.target))
  }

  ghost predicate AllWellFormed(tables: Tables) {
    forall o: Owner | Holds(tables, o) :: WellFormed(At(tables, o))
  }

  /** The entry with every path in it canonical, or `None` when it names
      something the walk refuses. */
  function CanonicalForm(raw: RawEntry): (r: Option<Entry>)
    ensures r.Some? ==> r.value.kind == raw.kind
  {
    if NamesTheRoot(raw.path) then
      if raw.kind != Directory then None
      else Some(Entry(Directory, ROOT_ENTRY, raw.link, [], raw.offset, raw.size))
    else
      match SafeComponents(raw.path)
      case None => None
      case Some(path) =>
        if raw.kind != HardLink then
          Some(Entry(raw.kind, path, raw.link, [], raw.offset, raw.size))
        else
          match SafeComponents(raw.link)
          case None => None
          case Some(target) =>
            Some(Entry(HardLink, path, Spell(target), target, raw.offset, raw.size))
  }

  lemma CanonicalFormIsWellFormed(raw: RawEntry)
    ensures CanonicalForm(raw).Some? ==> WellFormed(CanonicalForm(raw).value)
  {
    SafeIsCanonical(raw.path);
    SafeIsCanonical(raw.link);
  }

  predicate IsSafe(path: Bytes) {
    !Climbs(path) && NamesSomething(path)
  }

  /** Told from the text: a path that is not empty and names nothing is the
      rootfs, which only a directory can be, and any other has to be safe, as has
      the target of a hard link. */
  predicate IsAccepted(raw: RawEntry) {
    if raw.path != [] && !NamesSomething(raw.path) then raw.kind == Directory
    else IsSafe(raw.path) && (raw.kind == HardLink ==> IsSafe(raw.link))
  }

  /** What an accepted entry is read as. */
  ghost predicate IsReadAs(raw: RawEntry, entry: Entry) {
    && entry.kind == raw.kind && entry.offset == raw.offset && entry.size == raw.size
    && (if NamesSomething(raw.path) then ReadsAs(raw.path, entry.path) else entry.path == ROOT_ENTRY)
    && (if raw.kind == HardLink then ReadsAs(raw.link, entry.target) && entry.link == Spell(entry.target)
        else entry.link == raw.link)
  }

  lemma AcceptedEntries(raw: RawEntry)
    ensures CanonicalForm(raw).Some? <==> IsAccepted(raw)
    ensures CanonicalForm(raw).Some? ==> IsReadAs(raw, CanonicalForm(raw).value)
  {
    AcceptedPaths(raw.path);
    AcceptedPaths(raw.link);
  }

  lemma AllAccepted(raw: seq<seq<RawEntry>>)
    ensures forall l, e | 0 <= l < |raw| && 0 <= e < |raw[l]| ::
              CanonicalForm(raw[l][e]).Some? <==> IsAccepted(raw[l][e])
  {
    forall l, e | 0 <= l < |raw| && 0 <= e < |raw[l]|
      ensures CanonicalForm(raw[l][e]).Some? <==> IsAccepted(raw[l][e])
    {
      AcceptedEntries(raw[l][e]);
    }
  }

  /** Every entry in its canonical form, or nothing when one of them has none. */
  method Canonicalise(raw: seq<seq<RawEntry>>) returns (ok: bool, tables: Tables)
    ensures ok <==> forall l, e | 0 <= l < |raw| && 0 <= e < |raw[l]| :: CanonicalForm(raw[l][e]).Some?
    ensures ok <==> forall l, e | 0 <= l < |raw| && 0 <= e < |raw[l]| :: IsAccepted(raw[l][e])
    ensures ok ==> |tables| == |raw| && AllWellFormed(tables)
    ensures ok ==> forall l | 0 <= l < |raw| :: |tables[l]| == |raw[l]|
    ensures ok ==> forall l, e | 0 <= l < |raw| && 0 <= e < |raw[l]| ::
                     CanonicalForm(raw[l][e]) == Some(tables[l][e]) && IsReadAs(raw[l][e], tables[l][e])
  {
    AllAccepted(raw);
    tables := [];
    var l := 0;
    while l < |raw|
      invariant 0 <= l == |tables| <= |raw|
      invariant forall i | 0 <= i < l :: |tables[i]| == |raw[i]|
      invariant forall i, e | 0 <= i < l && 0 <= e < |raw[i]| ::
                  CanonicalForm(raw[i][e]) == Some(tables[i][e]) && WellFormed(tables[i][e])
                  && IsReadAs(raw[i][e], tables[i][e])
    {
      var table: Table := [];
      var e := 0;
      while e < |raw[l]|
        invariant 0 <= e == |table| <= |raw[l]|
        invariant forall i | 0 <= i < e ::
                    CanonicalForm(raw[l][i]) == Some(table[i]) && WellFormed(table[i]) && IsReadAs(raw[l][i], table[i])
      {
        CanonicalFormIsWellFormed(raw[l][e]);
        AcceptedEntries(raw[l][e]);
        var form := CanonicalForm(raw[l][e]);
        if form.None? {
          return false, [];
        }
        table := table + [form.value];
        e := e + 1;
      }
      tables := tables + [table];
      l := l + 1;
    }
    ok := true;
  }

  // ---------------------------------------------------------------- whiteouts

  const PREFIX: Name := [46, 119, 104, 46]
  const OPAQUE: Name := [46, 119, 104, 46, 46, 119, 104, 46, 46, 111, 112, 113]

  /** What a marker does away with: what lower layers left in a directory, or a
      single path. A bare prefix names nothing. */
  datatype Whiteout = Opaque(dir: Path) | Named(target: Path) | Invalid

  /** How an entry's last name is read: as a marker, or not. */
  function WhiteoutOf(path: Path): Option<Whiteout>
    requires path != []
  {
    var name := Last(path);
    if name == OPAQUE then Some(Opaque(Parent(path)))
    else if !StartsWith(name, PREFIX) then None
    else if name == PREFIX then Some(Invalid)
    else Some(Named(Parent(path) + [name[|PREFIX|..]]))
  }

  /** The same, as a layer's own bytes are read: cut at the last slash. */
  datatype Marker = EmptiesDirectory(dir: Bytes) | Hides(target: Bytes) | NamesNothing

  function LastSlash(path: Bytes): (at: int)
    ensures -1 <= at < |path| && (at >= 0 ==> path[at] == SLASH)
  {
    if path == [] || path[|path| - 1] == SLASH then |path| - 1 else LastSlash(path[..|path| - 1])
  }

  function SplitLast(path: Bytes): (Bytes, Bytes) {
    var at := LastSlash(path);
    if at < 0 then ([], path) else (path[..at], path[at + 1..])
  }

  function Join(dir: Bytes, name: Bytes): Bytes {
    if dir == [] then name else dir + [SLASH] + name
  }

  function MarkerOf(path: Bytes): Option<Marker> {
    var (dir, name) := SplitLast(path);
    if name == OPAQUE then Some(EmptiesDirectory(dir))
    else if !StartsWith(name, PREFIX) then None
    else if name == PREFIX then Some(NamesNothing)
    else Some(Hides(Join(dir, name[|PREFIX|..])))
  }

  lemma {:induction false} LastSlashIsFound(dir: Bytes, name: Bytes)
    requires SLASH !in name
    ensures LastSlash(name) == -1 && LastSlash(dir + [SLASH] + name) == |dir|
  {
    if name != [] {
      var less := name[..|name| - 1];
      LastSlashIsFound(dir, less);
      assert (dir + [SLASH] + name)[..|dir| + |name|] == dir + [SLASH] + less;
    } else {
      assert dir + [SLASH] + name == dir + [SLASH];
    }
  }

  /** Cut at its last slash, a path is the spelling of what holds it, and its
      name. */
  lemma SplitOfSpelling(path: Path)
    requires path != [] && SLASH !in Last(path)
    ensures SplitLast(Spell(path)) == (Spell(Parent(path)), Last(path))
  {
    var dir, name := Spell(Parent(path)), Last(path);
    LastSlashIsFound(dir, name);
    if |path| > 1 {
      assert Parent(path) + [name] == path;
      SpellOfSnoc(Parent(path), name);
      assert (dir + [SLASH] + name)[..|dir|] == dir && (dir + [SLASH] + name)[|dir| + 1..] == name;
    }
  }

  lemma JoinIsSpelled(dir: Path, name: Name)
    requires dir == [] || dir[0] != []
    ensures Join(Spell(dir), name) == Spell(dir + [name])
  {
    if dir == [] {
      assert dir + [name] == [name];
    } else {
      SpellOfSnoc(dir, name);
    }
  }

  /** Both routes read a marker from the bytes of its path, and what they read is
      what the names of the path say, spelled. */
  lemma MarkersReadAlike(path: Path)
    requires Canonical(path) || path == ROOT_ENTRY
    ensures MarkerOf(Spell(path)) ==
            match WhiteoutOf(path)
            case None => None
            case Some(Opaque(dir)) => Some(EmptiesDirectory(Spell(dir)))
            case Some(Named(target)) => Some(Hides(Spell(target)))
            case Some(Invalid) => Some(NamesNothing)
  {
    var name := Last(path);
    assert SLASH !in name && (|path| > 1 ==> path[0] != []) by {
      assert Canonical(path) ==> Ordinary(name) && Ordinary(path[0]);
    }
    SplitOfSpelling(path);
    if StartsWith(name, PREFIX) {
      JoinIsSpelled(Parent(path), name[|PREFIX|..]);
    }
  }
}
