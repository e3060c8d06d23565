/** Entry paths: the bytes a layer spells, the names they come to, and the byte
    order the plan's map keeps them in. */
module Paths {
  datatype Option<+T> = None | Some(value: T)

  type Byte = b: int | 0 <= b < 256
  type Bytes = seq<Byte>
  type Name = Bytes

  /** A path as the names on the way to it. Under the rootfs every route agrees
      on one such list per file, however a layer spells it. */
  type Path = seq<Name>

  const SLASH: Byte := 47
  const CURRENT_DIR: Name := [46]
  const PARENT_DIR: Name := [46, 46]

  // ---------------------------------------------------------------- spelling

  /** One byte more in front goes to the first part, or starts a new one. */
  function InFront(byte: Byte, parts: seq<Bytes>): seq<Bytes>
    requires parts != []
  {
    if byte == SLASH then [[]] + parts else [[byte] + parts[0]] + parts[1..]
  }

  /** `path` cut at every slash. */
  function Split(path: Bytes): (parts: seq<Bytes>)
    ensures |parts| >= 1
  {
    if path == [] then [[]]
    else InFront(path[0], Split(path[1..]))
  }

  predicate NamesNowhere(part: Bytes) {
    part == [] || part == CURRENT_DIR
  }

  /** The parts that name somewhere. */
  function Kept(parts: seq<Bytes>): Path {
    if parts == [] then []
    else if NamesNowhere(parts[0]) then Kept(parts[1..])
    else [parts[0]] + Kept(parts[1..])
  }

  function Components(path: Bytes): Path {
    Kept(Split(path))
  }

  /** The names `path` comes to under the rootfs, or `None` when it comes to
      nothing or climbs. */
  function SafeComponents(path: Bytes): Option<Path> {
    var names := Components(path);
    if names == [] || PARENT_DIR in names then None else Some(names)
  }

  predicate NamesTheRoot(path: Bytes) {
    path != [] && Components(path) == []
  }

  /** A name a path can hold: not empty, no slash, neither `.` nor `..`. */
  predicate Ordinary(name: Name) {
    name != [] && SLASH !in name && name != CURRENT_DIR && name != PARENT_DIR
  }

  predicate Canonical(path: Path) {
    path != [] && forall i | 0 <= i < |path| :: Ordinary(path[i])
  }

  /** A list of names that can be spelled: the canonical paths, and the few
      spellings the map can be asked about that are not canonical. */
  predicate Plain(path: Path) {
    path != [] && forall i | 0 <= i < |path| :: SLASH !in path[i]
  }

  /** The names joined by slashes. */
  function Spell(path: Path): Bytes {
    if path == [] then []
    else if |path| == 1 then path[0]
    else path[0] + [SLASH] + Spell(path[1..])
  }

  lemma {:induction false} SplitHasNoSlash(path: Bytes)
    ensures forall i | 0 <= i < |Split(path)| :: SLASH !in Split(path)[i]
  {
    if path != [] {
      SplitHasNoSlash(path[1..]);
    }
  }

  lemma {:induction false} SplitOfName(name: Bytes)
    requires SLASH !in name
    ensures Split(name) == [name]
  {
    if name != [] {
      SplitOfName(name[1..]);
      assert [name[0]] + name[1..] == name;
    }
  }

  lemma InFrontOfBoth(byte: Byte, parts: seq<Bytes>, more: seq<Bytes>)
    requires parts != []
    ensures InFront(byte, parts + more) == InFront(byte, parts) + more
  {
    assert (parts + more)[1..] == parts[1..] + more;
  }

  lemma {:induction false} SplitAtSlash(a: Bytes, b: Bytes)
    ensures Split(a + [SLASH] + b) == Split(a) + Split(b)
  {
    var whole := a + [SLASH] + b;
    if a == [] {
      assert whole[0] == SLASH && whole[1..] == b;
    } else {
      SplitAtSlash(a[1..], b);
      assert whole[0] == a[0] && whole[1..] == a[1..] + [SLASH] + b;
      InFrontOfBoth(a[0], Split(a[1..]), Split(b));
    }
  }

  lemma {:induction false} KeptOfConcat(a: seq<Bytes>, b: seq<Bytes>)
    ensures Kept(a + b) == Kept(a) + Kept(b)
  {
    if a == [] {
      assert a + b == b;
    } else {
      KeptOfConcat(a[1..], b);
      assert (a + b)[1..] == a[1..] + b;
    }
  }

  /** Joining two spellings with a slash appends what they name. */
  lemma ComponentsOfJoin(a: Bytes, b: Bytes)
    ensures Components(a + [SLASH] + b) == Components(a) + Components(b)
  {
    SplitAtSlash(a, b);
    KeptOfConcat(Split(a), Split(b));
  }

  lemma {:induction false} KeptAreNames(parts: seq<Bytes>)
    requires forall i | 0 <= i < |parts| :: SLASH !in parts[i]
    ensures forall i | 0 <= i < |Kept(parts)| ::
              Kept(parts)[i] != [] && Kept(parts)[i] != CURRENT_DIR && SLASH !in Kept(parts)[i]
  {
    if parts != [] {
      KeptAreNames(parts[1..]);
    }
  }

  /** What `SafeComponents` accepts is canonical. */
  lemma SafeIsCanonical(path: Bytes)
    ensures SafeComponents(path).Some? ==> Canonical(SafeComponents(path).value)
  {
    SplitHasNoSlash(path);
    KeptAreNames(Split(path));
  }

  lemma {:induction false} ComponentsOfSpell(path: Path)
    requires forall i | 0 <= i < |path| :: Ordinary(path[i])
    ensures Components(Spell(path)) == path
  {
    if path == [] {
    } else {
      SplitOfName(path[0]);
      assert Kept([path[0]]) == [path[0]];
      if |path| > 1 {
        ComponentsOfSpell(path[1..]);
        ComponentsOfJoin(path[0], Spell(path[1..]));
      }
    }
  }

  /** Spelling a canonical path and reading it back gives it back, so two
      canonical paths share no spelling. */
  lemma CanonicalFormIsFixed(path: Path)
    requires Canonical(path)
    ensures SafeComponents(Spell(path)) == Some(path)
  {
    ComponentsOfSpell(path);
  }

  lemma {:induction false} SplitOfSpell(path: Path)
    requires Plain(path)
    ensures Split(Spell(path)) == path
  {
    SplitOfName(path[0]);
    if |path| > 1 {
      SplitOfSpell(path[1..]);
      SplitAtSlash(path[0], Spell(path[1..]));
    }
  }

  lemma SpellIsInjective(p: Path, q: Path)
    requires Plain(p) && Plain(q) && Spell(p) == Spell(q)
    ensures p == q
  {
    SplitOfSpell(p);
    SplitOfSpell(q);
  }

  lemma {:induction false} SpellOfSnoc(path: Path, name: Name)
    requires path != []
    ensures Spell(path + [name]) == Spell(path) + [SLASH] + name
  {
    if |path| == 1 {
      assert (path + [name])[1..] == [name];
    } else {
      SpellOfSnoc(path[1..], name);
      assert (path + [name])[1..] == path[1..] + [name];
    }
  }

  // ------------------------------------------------------- what is accepted

  /** The parts joined with slashes are the path again. */
  lemma {:induction false} SpellOfSplit(path: Bytes)
    ensures Spell(Split(path)) == path
  {
    if path != [] {
      SpellOfSplit(path[1..]);
      assert [path[0]] + path[1..] == path;
    }
  }

  predicate Climbs(path: Bytes) {
    PARENT_DIR in Split(path)
  }

  /** Neither empty nor a single dot. */
  predicate IsName(part: Bytes) {
    part != [] && part != CURRENT_DIR
  }

  predicate NamesSomething(path: Bytes) {
    exists part | part in Split(path) :: IsName(part)
  }

  /** How many of the first `i` parts are names. */
  function NamesBefore(parts: seq<Bytes>, i: nat): nat
    requires i <= |parts|
  {
    if i == 0 then 0 else NamesBefore(parts, i - 1) + if IsName(parts[i - 1]) then 1 else 0
  }

  /** `names` are the names among the parts, all of them and in order: each comes
      after as many as there are before it. */
  ghost predicate AreTheNames(parts: seq<Bytes>, names: seq<Bytes>) {
    && |names| == NamesBefore(parts, |parts|)
    && forall i: nat | i < |parts| && IsName(parts[i]) :: IsAt(names, NamesBefore(parts, i), parts[i])
  }

  predicate IsAt(names: seq<Bytes>, k: nat, name: Bytes) {
    k < |names| && names[k] == name
  }

  ghost predicate ReadsAs(path: Bytes, names: seq<Bytes>) {
    AreTheNames(Split(path), names)
  }

  lemma {:induction false} KeptSoFar(parts: seq<Bytes>, n: nat)
    requires n <= |parts|
    ensures |Kept(parts[..n])| == NamesBefore(parts, n)
    ensures forall i: nat | i < n && IsName(parts[i]) :: IsAt(Kept(parts[..n]), NamesBefore(parts, i), parts[i])
  {
    if n > 0 {
      KeptSoFar(parts, n - 1);
      assert parts[..n] == parts[..n - 1] + [parts[n - 1]];
      KeptOfConcat(parts[..n - 1], [parts[n - 1]]);
      assert Kept([parts[n - 1]]) == if IsName(parts[n - 1]) then [parts[n - 1]] else [];
    }
  }

  lemma {:induction false} KeptAreAmong(parts: seq<Bytes>, part: Bytes)
    ensures part in Kept(parts) <==> part in parts && IsName(part)
  {
    if parts != [] {
      KeptAreAmong(parts[1..], part);
      assert parts == [parts[0]] + parts[1..];
    }
  }

  /** A path is accepted if and only if it does not climb and names something,
      and what it then comes to is what it names. */
  lemma AcceptedPaths(path: Bytes)
    ensures SafeComponents(path).Some? <==> !Climbs(path) && NamesSomething(path)
    ensures SafeComponents(path).Some? ==> ReadsAs(path, SafeComponents(path).value)
    ensures Components(path) == [] <==> !NamesSomething(path)
  {
    var parts, names := Split(path), Components(path);
    KeptSoFar(parts, |parts|);
    assert parts[..|parts|] == parts;
    forall part ensures part in names <==> part in parts && IsName(part) {
      KeptAreAmong(parts, part);
    }
    assert names != [] ==> names[0] in names;
  }

  /** The names one after another, with slashes between them. */
  method Join(names: Path) returns (out: Bytes)
    requires forall i | 0 <= i < |names| :: names[i] != []
    ensures out == Spell(names)
  {
    out := [];
    for i := 0 to |names|
      invariant out == Spell(names[..i]) && (out == [] <==> i == 0)
    {
      assert names[..i + 1] == names[..i] + [names[i]];
      if out != [] {
        SpellOfSnoc(names[..i], names[i]);
        out := out + [SLASH];
      }
      out := out + names[i];
    }
    assert names[..|names|] == names;
  }

  /** The one spelling kept of a path, whichever a layer uses. A path that climbs,
      or names nothing, has none. */
  method CanonicalEntryPath(path: Bytes) returns (ok: bool, out: Bytes)
    ensures ok <==> !Climbs(path) && NamesSomething(path)
    ensures ok ==> ReadsAs(path, Split(out)) && out == Spell(Split(out))
    ensures SafeComponents(path) == if ok then Some(Split(out)) else None
    ensures ok ==> SafeComponents(out) == SafeComponents(path)
  {
    var names := Components(path);
    AcceptedPaths(path);
    ok, out := names != [], [];
    for i := 0 to |names|
      invariant ok <==> names != [] && PARENT_DIR !in names[..i]
    {
      assert names[..i + 1] == names[..i] + [names[i]];
      if names[i] == PARENT_DIR { ok := false; }
    }
    assert names[..|names|] == names;
    if ok {
      SafeIsCanonical(path);
      out := Join(names);
      CanonicalFormIsFixed(names);
      SplitOfSpell(names);
    }
  }

  // ------------------------------------------------------------ above, below

  /** True when `path` is something under `dir`. Everything but the rootfs is
      under the rootfs, which is the empty list of names. */
  predicate Under(dir: Path, path: Path) {
    |dir| < |path| && path[..|dir|] == dir
  }

  predicate AtOrUnder(dir: Path, path: Path) {
    dir == path || Under(dir, path)
  }

  function Parent(path: Path): Path
    requires path != []
  {
    path[..|path| - 1]
  }

  function Last(path: Path): Name
    requires path != []
  {
    path[|path| - 1]
  }

  /** Every strict ancestor of `path` but the rootfs. */
  function Ancestors(path: Path): (r: set<Path>)
    ensures forall a :: a in r <==> a != [] && Under(a, path)
  {
    var r := set k | 1 <= k < |path| :: path[..k];
    assert forall a | a != [] && Under(a, path) :: path[..|a|] in r;
    r
  }

  lemma UnderIsTransitive(a: Path, b: Path, c: Path)
    requires Under(a, b) && AtOrUnder(b, c)
    ensures Under(a, c)
  {
    if b != c {
      assert c[..|a|] == c[..|b|][..|a|];
    }
  }

  // ------------------------------------------------------------- byte order

  predicate StartsWith(s: Bytes, prefix: Bytes) {
    |prefix| <= |s| && s[..|prefix|] == prefix
  }

  /** `[u8]`'s own order: the first differing byte decides, and a prefix comes
      before what it starts. */
  predicate Less(a: Bytes, b: Bytes) {
    b != [] && (a == [] || a[0] < b[0] || (a[0] == b[0] && Less(a[1..], b[1..])))
  }

  lemma {:induction false} LessIsTotal(a: Bytes, b: Bytes)
    ensures Less(a, b) || Less(b, a) || a == b
    ensures !(Less(a, b) && Less(b, a))
    ensures !Less(a, a)
  {
    if a != [] {
      LessIsTotal(a[1..], a[1..]);
      if b != [] {
        LessIsTotal(a[1..], b[1..]);
        if a[0] == b[0] && a[1..] == b[1..] {
          assert a == [a[0]] + a[1..] && b == [b[0]] + b[1..];
        }
      }
    }
  }

  lemma {:induction false} LessIsTransitive(a: Bytes, b: Bytes, c: Bytes)
    requires Less(a, b) && Less(b, c)
    ensures Less(a, c)
  {
    if a != [] && a[0] == b[0] && b[0] == c[0] {
      LessIsTransitive(a[1..], b[1..], c[1..]);
    }
  }

  lemma {:induction false} PrefixIsLess(a: Bytes, b: Bytes)
    requires StartsWith(b, a) && a != b
    ensures Less(a, b)
  {
    if a != [] {
      assert b[..|a|][0] == b[0];
      assert b[1..][..|a| - 1] == b[..|a|][1..];
      assert b == [b[0]] + b[1..] && a == [a[0]] + a[1..];
      PrefixIsLess(a[1..], b[1..]);
    }
  }

  /** Everything starting with `prefix` is one run of the order: what comes
      before one such string, and does not start with it, comes before all. */
  lemma {:induction false} PrefixIsOneRun(prefix: Bytes, x: Bytes, s: Bytes, t: Bytes)
    requires StartsWith(s, prefix) && StartsWith(t, prefix) && !StartsWith(x, prefix)
    ensures Less(x, s) <==> Less(x, t)
  {
    if x != [] {
      assert prefix[0] == s[0] == t[0];
      if x[0] == prefix[0] {
        assert s[1..][..|prefix| - 1] == prefix[1..] && t[1..][..|prefix| - 1] == prefix[1..];
        if StartsWith(x[1..], prefix[1..]) {
          assert false;
        }
        PrefixIsOneRun(prefix[1..], x[1..], s[1..], t[1..]);
      }
    }
  }

  /** Where an entry of the map comes relative to another. */
  predicate Before(p: Path, q: Path) {
    Less(Spell(p), Spell(q))
  }

  lemma {:induction false} SpellOfConcat(a: Path, b: Path)
    requires a != [] && b != []
    ensures Spell(a + b) == Spell(a) + [SLASH] + Spell(b)
  {
    if |a| == 1 {
      assert (a + b)[1..] == b;
    } else {
      SpellOfConcat(a[1..], b);
      assert (a + b)[1..] == a[1..] + b;
    }
  }

  /** What `dir` holds, spelled, starts with `dir` and a slash. */
  lemma SpellUnder(dir: Path, path: Path)
    requires dir != [] && Under(dir, path)
    ensures StartsWith(Spell(path), Spell(dir) + [SLASH])
  {
    assert path == dir + path[|dir|..];
    SpellOfConcat(dir, path[|dir|..]);
  }

  lemma StartsWithNameAndSlash(dir: Path, path: Path)
    requires Plain(dir) && Plain(path)
    requires StartsWith(Spell(path), Spell(dir) + [SLASH])
    ensures Under(dir, path)
  {
    var rest := Spell(path)[|Spell(dir)| + 1..];
    assert Spell(path) == Spell(dir) + [SLASH] + rest;
    SplitAtSlash(Spell(dir), rest);
    SplitOfSpell(dir);
    SplitOfSpell(path);
    assert path == dir + Split(rest);
  }

  /** What starts with a directory's spelling and a slash is under it, and
      nothing else is. A sibling with a longer name goes on with another byte. */
  lemma UnderIsAPrefix(dir: Path, path: Path)
    requires Plain(dir) && Plain(path)
    ensures Under(dir, path) <==> StartsWith(Spell(path), Spell(dir) + [SLASH])
  {
    if Under(dir, path) {
      SpellUnder(dir, path);
    } else if StartsWith(Spell(path), Spell(dir) + [SLASH]) {
      StartsWithNameAndSlash(dir, path);
    }
  }

  /** A directory sorts ahead of its contents. */
  lemma UnderComesAfter(dir: Path, path: Path)
    requires dir != [] && Under(dir, path)
    ensures Before(dir, path)
  {
    SpellUnder(dir, path);
    assert (Spell(dir) + [SLASH])[..|Spell(dir)|] == Spell(dir);
    assert Spell(path)[..|Spell(dir)|] == Spell(path)[..|Spell(dir)| + 1][..|Spell(dir)|];
    PrefixIsLess(Spell(dir), Spell(path));
  }

  /** What sorts between two paths under a directory is under it as well. */
  lemma UnderIsOneRange(dir: Path, x: Path, p: Path, q: Path)
    requires Plain(dir) && Plain(x) && Plain(p) && Plain(q)
    requires Under(dir, p) && Under(dir, q) && !Under(dir, x)
    ensures Before(x, p) <==> Before(x, q)
  {
    UnderIsAPrefix(dir, p);
    UnderIsAPrefix(dir, q);
    UnderIsAPrefix(dir, x);
    PrefixIsOneRun(Spell(dir) + [SLASH], Spell(x), Spell(p), Spell(q));
  }

  lemma BeforeIsTotal(p: Path, q: Path)
    requires Plain(p) && Plain(q)
    ensures Before(p, q) || Before(q, p) || p == q
    ensures !(Before(p, q) && Before(q, p))
    ensures !Before(p, p)
  {
    LessIsTotal(Spell(p), Spell(q));
    LessIsTotal(Spell(p), Spell(p));
    if Spell(p) == Spell(q) {
      SpellIsInjective(p, q);
    }
  }

  lemma BeforeIsTransitive(p: Path, q: Path, r: Path)
    requires Before(p, q) && Before(q, r)
    ensures Before(p, r)
  {
    LessIsTransitive(Spell(p), Spell(q), Spell(r));
  }

  lemma CanonicalIsPlain(path: Path)
    requires Canonical(path)
    ensures Plain(path)
  {
    forall i | 0 <= i < |path| ensures SLASH !in path[i] {
      assert Ordinary(path[i]);
    }
  }

  /** The first of some paths in the map's order. */
  lemma {:induction false} Earliest(paths: set<Path>) returns (first: Path)
    requires paths != {} && forall p | p in paths :: Plain(p)
    ensures first in paths && forall p | p in paths :: !Before(p, first)
  {
    var p :| p in paths;
    BeforeIsTotal(p, p);
    first := p;
    if paths != {p} {
      var q := Earliest(paths - {p});
      if Before(q, p) {
        BeforeIsTotal(p, q);
        first := q;
      } else {
        forall x | x in paths ensures !Before(x, p) {
          if x != p && Before(x, p) {
            BeforeIsTotal(q, p);
            if p != q {
              BeforeIsTransitive(x, p, q);
            }
          }
        }
      }
    }
  }
}
