/** The pass that resolves an image: the tree changed in place, a removal found
    by seeking to where a directory's contents start and reading on. */
module Resolver {
  import opened Paths
  import opened Layers
  import opened Owners
  import R = Replay

  ghost predicate PlainKeys(tree: R.Tree) {
    forall p | p in tree :: Plain(p)
  }

  /** The map's keys in its own order. */
  ghost predicate InOrder(tree: R.Tree, keys: seq<Path>) {
    && (forall p :: p in keys <==> p in tree)
    && Ascending(keys)
  }

  /** The order a `BTreeMap` keeps its keys in. */
  method Sorted(paths: set<Path>) returns (keys: seq<Path>)
    requires forall p | p in paths :: Plain(p)
    ensures (forall p :: p in keys <==> p in paths) && Ascending(keys)
  {
    keys := [];
    var rest := paths;
    while rest != {}
      invariant rest <= paths
      invariant forall p :: p in keys <==> p in paths && p !in rest
      invariant forall i, j | 0 <= i < j < |keys| :: Before(keys[i], keys[j])
      invariant forall i, p | 0 <= i < |keys| && p in rest :: Before(keys[i], p)
      decreases rest
    {
      var first :| first in rest;
      var left := rest;
      BeforeIsTotal(first, first);
      while left != {}
        invariant left <= rest && first in rest
        invariant forall p | p in rest && p !in left :: !Before(p, first)
        decreases left
      {
        var p :| p in left;
        left := left - {p};
        BeforeIsTotal(p, first);
        BeforeIsTotal(p, p);
        if Before(p, first) {
          forall q | q in rest && q !in left ensures !Before(q, p) {
            if Before(q, p) { BeforeIsTransitive(q, p, first); }
          }
          first := p;
        }
      }
      forall p | p in rest - {first} ensures Before(first, p) { BeforeIsTotal(first, p); }
      rest := rest - {first};
      keys := keys + [first];
    }
  }

  method Keys(tree: R.Tree) returns (keys: seq<Path>)
    requires PlainKeys(tree)
    ensures InOrder(tree, keys)
  {
    keys := Sorted(tree.Keys);
  }

  datatype Removal = Whole | LowerLayers(layer: nat)

  function Bound(dir: Path): Bytes {
    if dir == [] then [] else Spell(dir) + [SLASH]
  }

  lemma BoundIsUnder(dir: Path, path: Path)
    requires (dir == [] || Plain(dir)) && Plain(path)
    ensures StartsWith(Spell(path), Bound(dir)) <==> Under(dir, path)
  {
    if dir != [] {
      UnderIsAPrefix(dir, path);
    }
  }

  /** What comes before the bound is not under it, and nor is anything past the
      first that is not. */
  lemma RangeEnds(bound: Bytes, x: Bytes, later: Bytes)
    ensures Less(x, bound) ==> !StartsWith(x, bound)
    ensures !Less(x, bound) && !StartsWith(x, bound) && Less(x, later) ==> !StartsWith(later, bound)
  {
    LessIsTotal(x, bound);
    if StartsWith(x, bound) && x != bound { PrefixIsLess(bound, x); }
    if StartsWith(later, bound) && !StartsWith(x, bound) {
      assert bound[..|bound|] == bound;
      PrefixIsOneRun(bound, x, bound, later);
    }
  }

  ghost predicate IsBeneath(tree: R.Tree, dir: Path, path: Path) {
    path in tree && Under(dir, path) && path != ROOT_ENTRY
  }

  ghost predicate Ascending(keys: seq<Path>) {
    forall i, j | 0 <= i < j < |keys| :: Before(keys[i], keys[j])
  }

  lemma NextComesAfter(keys: seq<Path>, at: nat, under: seq<Path>)
    requires Ascending(keys) && at < |keys| && forall p | p in under :: p in keys[..at]
    ensures forall i | 0 <= i < |under| :: Before(under[i], keys[at])
  {
    forall i | 0 <= i < |under| ensures Before(under[i], keys[at]) {
      assert under[i] in under;
      var k :| 0 <= k < at && keys[..at][k] == under[i];
    }
  }

  /** Where the keys stop coming before `bound`. */
  method Seek(keys: seq<Path>, bound: Bytes) returns (at: nat)
    ensures at <= |keys| && (at < |keys| ==> !Less(Spell(keys[at]), bound))
    ensures forall i | 0 <= i < at :: !StartsWith(Spell(keys[i]), bound)
  {
    at := 0;
    while at < |keys| && Less(Spell(keys[at]), bound)
      invariant 0 <= at <= |keys|
      invariant forall i | 0 <= i < at :: !StartsWith(Spell(keys[i]), bound)
    {
      RangeEnds(bound, Spell(keys[at]), []);
      at := at + 1;
    }
  }

  /** The keys from there on that start with the bound, the rootfs's own entry
      left out. */
  method TakeWhile(keys: seq<Path>, bound: Bytes, start: nat) returns (under: seq<Path>)
    requires Ascending(keys) && start <= |keys| && (start < |keys| ==> !Less(Spell(keys[start]), bound))
    requires forall i | 0 <= i < start :: !StartsWith(Spell(keys[i]), bound)
    ensures Ascending(under)
    ensures forall p :: p in under <==> p in keys && StartsWith(Spell(p), bound) && p != ROOT_ENTRY
  {
    under := [];
    var at := start;
    assert forall p | p in keys[..start] :: !StartsWith(Spell(p), bound);
    while at < |keys| && StartsWith(Spell(keys[at]), bound)
      invariant start <= at <= |keys|
      invariant forall p :: p in under <==> p in keys[..at] && StartsWith(Spell(p), bound) && p != ROOT_ENTRY
      invariant Ascending(under)
    {
      assert keys[..at + 1] == keys[..at] + [keys[at]];
      if keys[at] != ROOT_ENTRY {
        NextComesAfter(keys, at, under);
        under := under + [keys[at]];
      }
      at := at + 1;
    }
    forall i | at <= i < |keys| ensures !StartsWith(Spell(keys[i]), bound) {
      PastTheRange(keys, bound, start, at, i);
    }
    assert keys == keys[..at] + keys[at..];
  }

  /** The range of the map a directory's contents are. */
  method Range(tree: R.Tree, keys: seq<Path>, dir: Path) returns (under: seq<Path>)
    requires PlainKeys(tree) && InOrder(tree, keys) && (dir == [] || Plain(dir))
    ensures forall p :: p in under <==> IsBeneath(tree, dir, p)
    ensures Ascending(under)
  {
    var start := Seek(keys, Bound(dir));
    under := TakeWhile(keys, Bound(dir), start);
    forall p | p in tree ensures StartsWith(Spell(p), Bound(dir)) <==> Under(dir, p) {
      BoundIsUnder(dir, p);
    }
  }

  lemma PastTheRange(keys: seq<Path>, bound: Bytes, start: nat, at: nat, i: nat)
    requires start <= at <= i < |keys| && !StartsWith(Spell(keys[at]), bound)
    requires !Less(Spell(keys[start]), bound)
    requires Ascending(keys)
    ensures !StartsWith(Spell(keys[i]), bound)
  {
    if Less(Spell(keys[at]), bound) {
      LessIsTransitive(Spell(keys[start]), Spell(keys[at]), bound);
    }
    RangeEnds(bound, Spell(keys[at]), Spell(keys[i]));
  }

  /** What the scan, read from the end, has in hand when it comes to `at`: the
      first path after it that the layer named. */
  ghost predicate InHand(tree: R.Tree, dir: Path, layer: nat, under: seq<Path>, at: nat, ours: Option<Path>)
    requires at <= |under|
  {
    match ours
    case None => forall i | at <= i < |under| :: !R.IsOurs(tree, dir, layer, under[i])
    case Some(path) =>
      exists i | at <= i < |under| :: under[i] == path && R.IsOurs(tree, dir, layer, path) &&
        forall j | at <= j < i :: !R.IsOurs(tree, dir, layer, under[j])
  }

  lemma HandDecides(tree: R.Tree, dir: Path, layer: nat, under: seq<Path>, at: nat, ours: Option<Path>)
    requires PlainKeys(tree) && at < |under| && InHand(tree, dir, layer, under, at + 1, ours)
    requires forall p :: p in under <==> IsBeneath(tree, dir, p)
    requires Ascending(under)
    ensures R.ScanKeeps(tree, dir, layer, under[at]) <==> ours.Some? && Under(under[at], ours.value)
  {
    var p := under[at];
    assert p in under;
    forall q | R.IsOurs(tree, dir, layer, q) && Before(p, q)
      ensures exists i | at < i < |under| :: under[i] == q
    {
      assert q in under;
      var i :| 0 <= i < |under| && under[i] == q;
      BeforeIsTotal(p, q);
      if i <= at { assert false; }
    }
    match ours
    case None =>
    case Some(path) =>
      var i :| at < i < |under| && under[i] == path && forall j | at < j < i :: !R.IsOurs(tree, dir, layer, under[j]);
      forall q | R.IsOurs(tree, dir, layer, q) && Before(p, q) ensures q == path || Before(path, q) {
        var j :| at < j < |under| && under[j] == q;
      }
      assert path in under;
      forall q | R.IsOurs(tree, dir, layer, q) && Before(p, q) ensures !Before(q, path) {
        assert q in under;
        BeforeIsTotal(path, q);
      }
      assert R.FirstOursAfter(tree, dir, layer, p, path);
      forall q | R.FirstOursAfter(tree, dir, layer, p, q) ensures q == path {
        assert q in under;
        BeforeIsTotal(path, q);
      }
  }

  /** What a removal leaves. */
  ghost function Left(tree: R.Tree, dir: Path, removal: Removal): R.Tree {
    match removal
    case Whole => map p | p in tree && !IsBeneath(tree, dir, p) :: tree[p]
    case LowerLayers(layer) => R.RemoveLower(tree, dir, layer)
  }

  /** Reads the range from its end, with one path in hand: the last met that the
      layer named. */
  method Scan(tree: R.Tree, dir: Path, layer: nat, under: seq<Path>) returns (doomed: set<Path>)
    requires PlainKeys(tree) && Ascending(under)
    requires forall p :: p in under <==> IsBeneath(tree, dir, p)
    ensures forall p :: p in doomed <==> R.Dropped(tree, dir, layer, p)
  {
    doomed := {};
    var ours: Option<Path> := None;
    var at := |under|;
    while at > 0
      invariant 0 <= at <= |under|
      invariant InHand(tree, dir, layer, under, at, ours)
      invariant forall p :: p in doomed <==> p in under[at..] && R.Dropped(tree, dir, layer, p)
    {
      at := at - 1;
      var path := under[at];
      assert path in under && under[at..] == [path] + under[at + 1..];
      if tree[path].namedBy == Some(layer) {
        ours := Some(path);
      } else {
        HandDecides(tree, dir, layer, under, at, ours);
        HandKept(tree, dir, layer, under, at, ours);
        if !(ours.Some? && AtOrUnder(path, ours.value)) {
          doomed := doomed + {path};
        }
      }
    }
    assert under[0..] == under;
  }

  method RemoveUnder(tree: R.Tree, dir: Path, removal: Removal) returns (after: R.Tree)
    requires PlainKeys(tree) && (dir == [] || Plain(dir))
    ensures after == Left(tree, dir, removal)
  {
    var keys := Keys(tree);
    var under := Range(tree, keys, dir);
    var doomed: set<Path>;
    match removal {
      case Whole => doomed := set p | p in under;
      case LowerLayers(layer) => doomed := Scan(tree, dir, layer, under);
    }
    after := tree - doomed;
  }

  lemma HandKept(tree: R.Tree, dir: Path, layer: nat, under: seq<Path>, at: nat, ours: Option<Path>)
    requires at < |under| && InHand(tree, dir, layer, under, at + 1, ours) && !R.IsOurs(tree, dir, layer, under[at])
    ensures InHand(tree, dir, layer, under, at, ours)
    ensures ours.Some? ==> ours.value != under[at]
  {
    if ours.Some? {
      var i :| at < i < |under| && under[i] == ours.value &&
        forall j | at < j < i :: !R.IsOurs(tree, dir, layer, under[j]);
      assert forall j | at <= j < i :: !R.IsOurs(tree, dir, layer, under[j]);
    }
  }

  // ------------------------------------------------------------ the replay

  lemma OwnedKeysArePlain(tables: Tables, tree: R.Tree)
    requires OwnersMatch(tables, tree)
    ensures PlainKeys(tree)
  {
    forall p | p in tree ensures Plain(p) {
      assert Owned(tables, p, tree[p]);
      if Canonical(p) { CanonicalIsPlain(p); }
    }
  }

  /** A path's missing holders, shallowest first. */
  method EnsureParents(tree: R.Tree, path: Path, owner: Owner) returns (after: R.Tree)
    ensures after == R.EnsureParents(tree, path, owner)
  {
    after := tree;
    var k := 1;
    while k < |path|
      invariant 1 <= k && (k <= |path| || k == 1)
      invariant forall p :: p in after <==> p in tree || (p != [] && |p| < k && Under(p, path))
      invariant forall p | p in after :: after[p] == if p in tree then tree[p] else R.Node(Directory, owner, None)
    {
      var ancestor := path[..k];
      if ancestor !in after {
        after := after[ancestor := R.Node(Directory, owner, None)];
      }
      assert forall p | p != [] && |p| == k && Under(p, path) :: p == ancestor;
      k := k + 1;
    }
  }

  method Place(s: R.State, tables: Tables, owner: Owner, entry: Entry) returns (after: R.State)
    requires OwnersMatch(tables, s.tree) && Holds(tables, owner) && At(tables, owner) == entry && WellFormed(entry)
    ensures after == R.PlaceEntry(s, tables, owner, entry)
  {
    var path, blocked := entry.path, s.blocked;
    if entry.kind == Unsupported { return s; }
    var node := R.Node(entry.kind, owner, Some(owner.layer));
    var tree := EnsureParents(s.tree, path, owner);
    OwnedKeysArePlain(tables, tree);
    if entry.kind == Directory {
      // A symlink the plan cannot follow is left where it is.
      var keeps := R.KeepsTheLink(tree, tables, path);
      if keeps.None? {
        blocked := blocked.Worst(R.ThroughASymlink);
      }
      if keeps == Some(false) {
        tree := tree[path := node];
      } else if path in tree {
        tree := tree[path := tree[path].(namedBy := Some(owner.layer))];
      }
    } else if entry.kind == HardLink && entry.target == path {
      if path in tree {
        tree := tree[path := tree[path].(namedBy := Some(owner.layer))];
      }
    } else {
      CanonicalIsPlain(path);
      RootEntryIsNotCanonical();
      ghost var parents := tree;
      tree := RemoveUnder(tree, path, Whole);
      tree := tree[path := node];
      assert tree == R.RemoveWhole(parents, path)[path := node];
    }
    after := R.State(tree, blocked);
  }

  lemma TargetsArePlain(path: Path)
    requires Canonical(path)
    ensures Parent(path) == [] || Plain(Parent(path))
    ensures WhiteoutOf(path).Some? && WhiteoutOf(path).value.Named? ==> Plain(WhiteoutOf(path).value.target)
  {
    CanonicalIsPlain(path);
    if WhiteoutOf(path).Some? && WhiteoutOf(path).value.Named? {
      var target := WhiteoutOf(path).value.target;
      forall i | 0 <= i < |target| ensures SLASH !in target[i] {
        assert SLASH !in path[i];
        if i < |target| - 1 { assert target[i] == path[i]; }
      }
    }
  }

  method ReplayOne(s: R.State, tables: Tables, owner: Owner, entry: Entry) returns (after: R.State)
    requires OwnersMatch(tables, s.tree) && Holds(tables, owner) && At(tables, owner) == entry && WellFormed(entry)
    ensures after == R.ReplayEntry(s, tables, owner, entry)
  {
    OwnedKeysArePlain(tables, s.tree);
    var blocked := s.blocked.Worst(R.InTheWay(s.tree, tables, entry.path));
    var marker := WhiteoutOf(entry.path);
    if entry.path != ROOT_ENTRY { TargetsArePlain(entry.path); }
    match marker {
      case Some(Opaque(dir)) =>
        var tree := RemoveUnder(s.tree, dir, LowerLayers(owner.layer));
        after := R.State(tree, blocked);
      case Some(Named(target)) =>
        var tree := s.tree;
        if !(target in tree && tree[target].namedBy == Some(owner.layer)) {
          tree := RemoveUnder(tree - {target}, target, Whole);
          assert tree == R.RemoveWhole(s.tree, target);
        }
        after := R.State(tree, blocked);
      case Some(Invalid) =>
        after := Place(R.State(s.tree, R.TheWalkStopsHere), tables, owner, entry);
      case None =>
        blocked := blocked.Worst(R.LinksSomewhere(s.tree, tables, entry));
        after := Place(R.State(s.tree, blocked), tables, owner, entry);
    }
  }

  /** All entries of all layers, one at a time, and what is left of them. */
  method Replay(tables: Tables) returns (s: R.State)
    requires AllWellFormed(tables) && PathsNamed(tables)
    ensures s == R.Replayed(tables)
  {
    s := R.State(map[], R.Nothing);
    var l := 0;
    while l < |tables|
      invariant 0 <= l <= |tables| && OwnersMatch(tables, s.tree)
      invariant l < |tables| ==> s == R.ReplayTo(tables, l, 0)
      invariant l == |tables| ==> s == R.Replayed(tables)
    {
      var e := 0;
      while e < |tables[l]|
        invariant 0 <= e <= |tables[l]| && OwnersMatch(tables, s.tree)
        invariant s == R.ReplayTo(tables, l, e)
      {
        var owner := Owner(l, e);
        assert Holds(tables, owner) && WellFormed(At(tables, owner));
        EntryKeepsOwners(tables, s, owner, tables[l][e]);
        s := ReplayOne(s, tables, owner, tables[l][e]);
        e := e + 1;
      }
      if l + 1 < |tables| {
        assert R.ReplayTo(tables, l + 1, 0) == R.ReplayTo(tables, l, |tables[l]|);
      }
      l := l + 1;
    }
  }
}
