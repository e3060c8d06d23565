/** Deciding what an image's layers leave behind, without touching a disk. */
module Replay {
  import opened Paths
  import opened Layers

  /** What stands at a path after some entries. `namedBy` is the latest layer
      that named the path; what stands there may be an earlier one's. */
  datatype Node = Node(kind: Kind, owner: Owner, namedBy: Option<nat>)

  type Tree = map<Path, Node>

  datatype Blocked = Nothing | ThroughASymlink | TheWalkStopsHere {
    function Worst(other: Blocked): Blocked {
      match (this, other)
      case (TheWalkStopsHere, _) => TheWalkStopsHere
      case (_, TheWalkStopsHere) => TheWalkStopsHere
      case (ThroughASymlink, _) => ThroughASymlink
      case (_, ThroughASymlink) => ThroughASymlink
      case _ => Nothing
    }
  }

  datatype State = State(tree: Tree, blocked: Blocked)

  // ------------------------------------------------------------ what stands

  predicate Named(tree: Tree, path: Path, kind: Kind) {
    path in tree && tree[path].kind == kind
  }

  /** The first ancestor of `path`, from the one of `k` names down, that stands
      and is not a directory. */
  function BlockedFrom(tree: Tree, path: Path, k: nat): (r: Option<Path>)
    ensures r.Some? ==> k <= |r.value| < |path| && path[..|r.value|] == r.value && r.value in tree
    ensures r.Some? ==> tree[r.value].kind != Directory
    ensures r.None? ==> forall i | k <= i < |path| && path[..i] in tree :: tree[path[..i]].kind == Directory
    decreases |path| - k
  {
    if k >= |path| then None
    else if path[..k] in tree && tree[path[..k]].kind != Directory then Some(path[..k])
    else BlockedFrom(tree, path, k + 1)
  }

  function BlockedBy(tree: Tree, path: Path): Option<Path> {
    BlockedFrom(tree, path, 1)
  }

  predicate HoldsAnything(tree: Tree, dir: Path) {
    exists p | p in tree :: Under(dir, p)
  }

  function LinkOf(tables: Tables, owner: Owner): Bytes {
    if Holds(tables, owner) then At(tables, owner).link else []
  }

  predicate IsAbsolute(target: Bytes) {
    target != [] && target[0] == SLASH
  }

  /** Where the plan takes a symlink standing at `path` to point: an absolute
      target from the rootfs, a relative one from where the link stands. */
  function PointsAt(path: Path, target: Bytes): Option<Path>
    requires path != []
  {
    var names := (if IsAbsolute(target) then [] else Parent(path)) + Components(target);
    if names == [] || PARENT_DIR in names then None else Some(names)
  }

  /** Whether a symlink standing at `path` leads to a directory, as far as
      looking up its end point tells. */
  function ResolvesToADirectory(tree: Tree, path: Path, target: Bytes): Option<bool>
    requires path != []
  {
    match PointsAt(path, target)
    case None => None
    case Some(at) =>
      if at !in tree then Some(HoldsAnything(tree, at))
      else if tree[at].kind == Symlink then None
      else Some(tree[at].kind == Directory)
  }

  /** What bars the way to `path`, when something does. */
  function InTheWay(tree: Tree, tables: Tables, path: Path): Blocked {
    match BlockedBy(tree, path)
    case None => Nothing
    case Some(ancestor) =>
      if tree[ancestor].kind != Symlink then TheWalkStopsHere
      else if ResolvesToADirectory(tree, ancestor, LinkOf(tables, tree[ancestor].owner)) == Some(true)
      then ThroughASymlink
      else TheWalkStopsHere
  }

  /** Whether a hard link's target is there to be linked to. */
  function LinksSomewhere(tree: Tree, tables: Tables, entry: Entry): Blocked {
    if entry.kind == Symlink && entry.link == [] then TheWalkStopsHere
    else if entry.kind == HardLink &&
            (|| Under(entry.path, entry.target)
             || InTheWay(tree, tables, entry.target) != Nothing
             || entry.target !in tree
             || tree[entry.target].kind == Directory
             || tree[entry.target].kind == Unsupported)
    then TheWalkStopsHere
    else Nothing
  }

  // ------------------------------------------------------------ what changes

  /** A path's missing holders, made for it. No entry names them. */
  function EnsureParents(tree: Tree, path: Path, owner: Owner): Tree {
    map p | p in Ancestors(path) + tree.Keys :: if p in tree then tree[p] else Node(Directory, owner, None)
  }

  /** `path` taken away, with everything under it. */
  function RemoveWhole(tree: Tree, path: Path): Tree {
    map p | p in tree && !AtOrUnder(path, p) :: tree[p]
  }

  predicate IsOurs(tree: Tree, dir: Path, layer: nat, path: Path) {
    path in tree && Under(dir, path) && path != ROOT_ENTRY && tree[path].namedBy == Some(layer)
  }

  /** `ours` is the path the scan, read deepest first, last saw named by
      `layer` when it comes to `path`. */
  ghost predicate FirstOursAfter(tree: Tree, dir: Path, layer: nat, path: Path, ours: Path) {
    && IsOurs(tree, dir, layer, ours) && Before(path, ours)
    && forall q | IsOurs(tree, dir, layer, q) && Before(path, q) :: !Before(q, ours)
  }

  /** The scan keeps a path the layer did not name when what it last saw of the
      layer's is under it. */
  ghost predicate ScanKeeps(tree: Tree, dir: Path, layer: nat, path: Path) {
    exists ours :: FirstOursAfter(tree, dir, layer, path, ours) && Under(path, ours)
  }

  /** What an opaque marker drops from beneath `dir`. */
  ghost predicate Dropped(tree: Tree, dir: Path, layer: nat, path: Path) {
    && path in tree && Under(dir, path) && path != ROOT_ENTRY
    && tree[path].namedBy != Some(layer) && !ScanKeeps(tree, dir, layer, path)
  }

  ghost function RemoveLower(tree: Tree, dir: Path, layer: nat): Tree {
    map p | p in tree && !Dropped(tree, dir, layer, p) :: tree[p]
  }

  // ------------------------------------------------------------ one entry

  /** Whether a directory entry leaves what stands at its path alone: a symlink
      that resolves to a directory does, and so does one the plan cannot
      follow. */
  function KeepsTheLink(tree: Tree, tables: Tables, path: Path): Option<bool>
    requires path != []
  {
    if !Named(tree, path, Symlink) then Some(false)
    else ResolvesToADirectory(tree, path, LinkOf(tables, tree[path].owner))
  }

  function Rename(tree: Tree, path: Path, layer: nat): Tree {
    if path in tree then tree[path := tree[path].(namedBy := Some(layer))] else tree
  }

  ghost function PlaceEntry(s: State, tables: Tables, owner: Owner, entry: Entry): State
    requires entry.path != []
  {
    var node := Node(entry.kind, owner, Some(owner.layer));
    match entry.kind
    case Unsupported => s
    case Directory =>
      var tree := EnsureParents(s.tree, entry.path, owner);
      (match KeepsTheLink(tree, tables, entry.path)
       case None => State(Rename(tree, entry.path, owner.layer), s.blocked.Worst(ThroughASymlink))
       case Some(true) => State(Rename(tree, entry.path, owner.layer), s.blocked)
       case Some(false) => State(tree[entry.path := node], s.blocked))
    case _ =>
      var tree := EnsureParents(s.tree, entry.path, owner);
      if entry.kind == HardLink && entry.target == entry.path then
        State(Rename(tree, entry.path, owner.layer), s.blocked)
      else
        State(RemoveWhole(tree, entry.path)[entry.path := node], s.blocked)
  }

  /** A layer's own marker does not hide a path the layer named. */
  ghost function ApplyNamed(tree: Tree, target: Path, layer: nat): Tree {
    if target in tree && tree[target].namedBy == Some(layer) then tree else RemoveWhole(tree, target)
  }

  ghost function ReplayEntry(s: State, tables: Tables, owner: Owner, entry: Entry): State
    requires entry.path != []
  {
    var blocked := s.blocked.Worst(InTheWay(s.tree, tables, entry.path));
    match WhiteoutOf(entry.path)
    case Some(Opaque(dir)) => State(RemoveLower(s.tree, dir, owner.layer), blocked)
    case Some(Named(target)) => State(ApplyNamed(s.tree, target, owner.layer), blocked)
    case Some(Invalid) =>
      PlaceEntry(State(s.tree, TheWalkStopsHere), tables, owner, entry)
    case None =>
      PlaceEntry(State(s.tree, blocked.Worst(LinksSomewhere(s.tree, tables, entry))), tables, owner, entry)
  }

  // ------------------------------------------------------------ the replay

  /** The tree, and what stood in the way, when the pass reaches a point. */
  ghost function ReplayTo(tables: Tables, layer: nat, entries: nat): State
    requires IsPoint(tables, layer, entries) && PathsNamed(tables)
    decreases layer, entries
  {
    if entries > 0 then
      var owner := Owner(layer, entries - 1);
      assert Holds(tables, owner);
      ReplayEntry(ReplayTo(tables, layer, entries - 1), tables, owner, At(tables, owner))
    else if layer > 0 then ReplayTo(tables, layer - 1, |tables[layer - 1]|)
    else State(map[], Nothing)
  }

  /** The whole image. */
  ghost function Replayed(tables: Tables): State
    requires PathsNamed(tables)
  {
    if tables == [] then State(map[], Nothing)
    else ReplayTo(tables, |tables| - 1, |tables[|tables| - 1]|)
  }

  /** Nothing stood in the way so far if nothing does in the end. */
  lemma NothingBlockedSoFar(tables: Tables, layer: nat, entries: nat)
    requires IsPoint(tables, layer, entries) && entries > 0 && PathsNamed(tables)
    requires ReplayTo(tables, layer, entries).blocked == Nothing
    ensures ReplayTo(tables, layer, entries - 1).blocked == Nothing
  {
  }

  ghost predicate FreeAt(tables: Tables, layer: nat, entries: nat)
    requires IsPoint(tables, layer, entries) && PathsNamed(tables)
  {
    ReplayTo(tables, layer, entries).blocked == Nothing
  }

  lemma FreeBefore(tables: Tables, layer: nat, entries: nat)
    requires IsPoint(tables, layer, entries) && PathsNamed(tables) && FreeAt(tables, layer, entries)
    ensures entries > 0 ==> FreeAt(tables, layer, entries - 1)
    ensures entries == 0 && layer > 0 ==> FreeAt(tables, layer - 1, |tables[layer - 1]|)
  {
    if entries > 0 {
      NothingBlockedSoFar(tables, layer, entries);
    }
  }
}
