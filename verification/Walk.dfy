/** Walking the layers and placing each entry on a disk. */
module Walk {
  import opened Paths
  import opened Layers

  /** What a name on the disk holds. An inode is known by the entry that made
      it, so two names share one exactly when these agree. */
  datatype Inode = DirectoryInode | FileInode(made: Owner) | LinkInode(made: Owner, target: Bytes)

  /** A name, with the entry that last placed something there. */
  datatype Slot = Slot(placed: Owner, inode: Inode)

  type Disk = map<Path, Slot>

  /** The disk, and what the layer being walked has placed on it so far. */
  datatype State = State(disk: Disk, written: set<Path>)

  /** `Stops` is an error the walk reports. `Elsewhere` is a step that acts
      through a symlink, or on a name that is not ordinary; where that lands is
      not part of this model. */
  datatype Outcome = Walked(state: State) | Stops | Elsewhere

  /** Whether what the host has at the end of some names is a directory, for a
      symlink that leaves the rootfs: by an absolute target, or by climbing. */
  type Host = (Disk, bool, Path) -> bool

  predicate IsDirectory(disk: Disk, path: Path) {
    path in disk && disk[path].inode.DirectoryInode?
  }

  predicate IsLink(disk: Disk, path: Path) {
    path in disk && disk[path].inode.LinkInode?
  }

  /** On a disk whatever holds a name is a directory. */
  ghost predicate DiskShape(disk: Disk) {
    && [] !in disk
    && forall p, a | p in disk && a != [] && Under(a, p) :: IsDirectory(disk, a)
  }

  // --------------------------------------------------------- resolving names

  /** How many symlinks a lookup follows before it gives up. */
  const MAX_LINKS: nat := 40

  /** Whether following `rest` from the directory `at` ends on a directory. */
  function Follows(disk: Disk, host: Host, at: Path, rest: Path, links: nat): bool
    decreases links, |rest|
  {
    if rest == [] then true
    else if rest[0] == PARENT_DIR then
      if at == [] then host(disk, false, rest) else Follows(disk, host, Parent(at), rest[1..], links)
    else
      var next := at + [rest[0]];
      if next !in disk then false
      else match disk[next].inode
        case DirectoryInode => Follows(disk, host, next, rest[1..], links)
        case FileInode(_) => false
        case LinkInode(_, target) =>
          if links == 0 then false
          else if target != [] && target[0] == SLASH then host(disk, true, Components(target) + rest[1..])
          else Follows(disk, host, at, Components(target) + rest[1..], links - 1)
  }

  /** `fs::metadata`: whether `path`, followed, is a directory. Everything on
      the way to it is one already. */
  function LeadsToADirectory(disk: Disk, host: Host, path: Path): bool
    requires path != []
  {
    Follows(disk, host, Parent(path), [Last(path)], MAX_LINKS)
  }

  datatype Way = Clear | FileInTheWay | LinkInTheWay

  function WayFrom(disk: Disk, path: Path, k: nat): (w: Way)
    ensures w == Clear <==> forall i | k <= i < |path| && path[..i] in disk :: IsDirectory(disk, path[..i])
    decreases |path| - k
  {
    if k >= |path| then Clear
    else if path[..k] !in disk || IsDirectory(disk, path[..k]) then WayFrom(disk, path, k + 1)
    else if IsLink(disk, path[..k]) then LinkInTheWay
    else FileInTheWay
  }

  /** What the kernel meets on the way to `path`. */
  function WayTo(disk: Disk, path: Path): Way {
    WayFrom(disk, path, 1)
  }

  // ------------------------------------------------------------ what changes

  function MakeParents(disk: Disk, path: Path, owner: Owner): Disk {
    map p | p in Ancestors(path) + disk.Keys :: if p in disk then disk[p] else Slot(owner, DirectoryInode)
  }

  function RemoveAny(disk: Disk, path: Path): Disk {
    map p | p in disk && !AtOrUnder(path, p) :: disk[p]
  }

  /** Something this layer wrote is under `dir`. */
  predicate WroteUnder(written: set<Path>, dir: Path) {
    exists p | p in written :: Under(dir, p)
  }

  predicate ClearKeeps(disk: Disk, written: set<Path>, path: Path) {
    path in written || (IsDirectory(disk, path) && WroteUnder(written, path))
  }

  /** What lower layers left under `dir` is gone. */
  function ClearLower(disk: Disk, written: set<Path>, dir: Path): Disk {
    map p | p in disk && (Under(dir, p) ==> ClearKeeps(disk, written, p)) :: disk[p]
  }

  // ------------------------------------------------------------ one entry

  function ApplyOpaque(s: State, dir: Path): Outcome {
    if dir == [] then Walked(State(ClearLower(s.disk, s.written, dir), s.written))
    else match WayTo(s.disk, dir)
      case FileInTheWay => Stops
      case LinkInTheWay => Elsewhere
      case Clear =>
        if IsDirectory(s.disk, dir) then Walked(State(ClearLower(s.disk, s.written, dir), s.written))
        else Walked(s)
  }

  function ApplyNamed(s: State, target: Path): Outcome
    requires target != []
  {
    if !Ordinary(Last(target)) then Elsewhere
    else if target in s.written then Walked(s)
    else match WayTo(s.disk, target)
      case FileInTheWay => Stops
      case LinkInTheWay => Elsewhere
      case Clear => Walked(State(RemoveAny(s.disk, target), s.written))
  }

  /** A directory, or a symlink that leads to one, is kept as it stands. */
  function PlaceDirectory(disk: Disk, host: Host, path: Path, owner: Owner): Disk
    requires path != []
  {
    if IsLink(disk, path) && LeadsToADirectory(disk, host, path) then disk
    else if IsDirectory(disk, path) then disk[path := Slot(owner, DirectoryInode)]
    else RemoveAny(disk, path)[path := Slot(owner, DirectoryInode)]
  }

  function PlaceHardLink(disk: Disk, path: Path, target: Path, owner: Owner): Option<Disk> {
    if target == path && path in disk then Some(disk)
    else
      var cleared := RemoveAny(disk, path);
      if target in cleared && !cleared[target].inode.DirectoryInode?
      then Some(cleared[path := Slot(owner, cleared[target].inode)])
      else None
  }

  function PlaceEntry(s: State, host: Host, owner: Owner, entry: Entry, skipped: bool): Outcome
    requires entry.path != []
  {
    var path := entry.path;
    var written := s.written + {path};
    match WayTo(s.disk, path)
    case FileInTheWay => Stops
    case LinkInTheWay => Elsewhere
    case Clear =>
      var disk := MakeParents(s.disk, path, owner);
      if entry.kind.IsFile() then
        if skipped then Walked(State(RemoveAny(disk, path), written))
        else Walked(State(RemoveAny(disk, path)[path := Slot(owner, FileInode(owner))], written))
      else if entry.kind == Directory then
        Walked(State(PlaceDirectory(disk, host, path, owner), written))
      else if entry.kind == HardLink then
        match WayTo(disk, entry.target)
        case FileInTheWay => Stops
        case LinkInTheWay => Elsewhere
        case Clear =>
          match PlaceHardLink(disk, path, entry.target, owner)
          case None => Stops
          case Some(linked) => Walked(State(linked, written))
      else if entry.link == [] then Stops
      else Walked(State(RemoveAny(disk, path)[path := Slot(owner, LinkInode(owner, entry.link))], written))
  }

  /** One entry of a layer. A file that is `skipped` gets no body, but takes the
      place of what stands there all the same. */
  function WalkEntry(s: State, host: Host, owner: Owner, entry: Entry, skipped: bool): Outcome
    requires entry.path != []
  {
    if entry.path == ROOT_ENTRY then Walked(s)
    else match WhiteoutOf(entry.path)
      case Some(Opaque(dir)) => ApplyOpaque(s, dir)
      case Some(Named(target)) => ApplyNamed(s, target)
      case Some(Invalid) => Stops
      case None =>
        if entry.kind == Unsupported then Walked(s)
        else PlaceEntry(s, host, owner, entry, skipped)
  }

  // ------------------------------------------------------------ the walk

  /** What the plan says to skip, asked by layer and path. */
  type Skips = (nat, Path) -> bool

  const PLACE_ALL: Skips := (l, p) => false

  /** The walk after every layer below `layer` and the first `entries` of that
      one. Each layer starts having written nothing. */
  ghost function WalkTo(tables: Tables, host: Host, skips: Skips, layer: nat, entries: nat): Outcome
    requires IsPoint(tables, layer, entries) && PathsNamed(tables)
    decreases layer, entries
  {
    if entries > 0 then
      match WalkTo(tables, host, skips, layer, entries - 1)
      case Walked(s) =>
        var owner := Owner(layer, entries - 1);
        assert Holds(tables, owner);
        var entry := At(tables, owner);
        WalkEntry(s, host, owner, entry, skips(layer, entry.path))
      case stopped => stopped
    else if layer > 0 then
      match WalkTo(tables, host, skips, layer - 1, |tables[layer - 1]|)
      case Walked(s) => Walked(State(s.disk, {}))
      case stopped => stopped
    else Walked(State(map[], {}))
  }
}
