/** A namespace of directories and other things, and the moves that keep it a
    tree. */
module Namespaces {
  import opened Paths

  /** Where a name stands: the directory holding it, and the name. */
  datatype Place<+I, +N> = Place(dir: I, name: N)

  /** Which inodes are directories and which other things, where each
      directory's `..` leads, what each name leads to, and the link counts. */
  datatype Namespace<I(==), N(==)> = Namespace(
    root: I, dirs: set<I>, others: set<I>, parent: map<I, I>, names: map<Place<I, N>, I>, count: map<I, int>)

  // ------------------------------------------------------------ the invariant

  /** Every name of an inode. */
  function NamesOf<I(==), N(==)>(v: Namespace<I, N>, ino: I): set<Place<I, N>> {
    set e | e in v.names && v.names[e] == ino
  }

  function Subdirectories<I(==), N(==)>(v: Namespace<I, N>, dir: I): set<Place<I, N>> {
    set e | e in v.names && e.dir == dir && v.names[e] in v.dirs
  }

  /** What a name leads to is live, and a directory knows which one holds it. */
  ghost predicate NameLeads<I, N>(v: Namespace<I, N>, e: Place<I, N>) {
    && e in v.names && e.dir in v.dirs && v.names[e] in v.dirs + v.others && v.names[e] != v.root
    && (v.names[e] in v.dirs ==> v.names[e] in v.parent && v.parent[v.names[e]] == e.dir)
  }

  /** A directory's count is two and one for each subdirectory, and it has one
      name unless it is the root. */
  ghost predicate DirCounts<I, N>(v: Namespace<I, N>, x: I) {
    x in v.count && v.count[x] == 2 + |Subdirectories(v, x)| && (x != v.root ==> |NamesOf(v, x)| == 1)
  }

  /** Anything else counts its names, and never has none. */
  ghost predicate OtherCounts<I, N>(v: Namespace<I, N>, x: I) {
    x in v.count && v.count[x] == |NamesOf(v, x)| && |NamesOf(v, x)| >= 1
  }

  ghost predicate Sane<I, N>(v: Namespace<I, N>) {
    && v.root in v.dirs && v.parent.Keys == v.dirs && v.parent[v.root] == v.root
    && v.dirs !! v.others && v.count.Keys == v.dirs + v.others
  }

  ghost predicate NamesLead<I, N>(v: Namespace<I, N>) {
    forall e | e in v.names :: NameLeads(v, e)
  }

  ghost predicate CountsHold<I, N>(v: Namespace<I, N>) {
    (forall x | x in v.dirs :: DirCounts(v, x)) && (forall x | x in v.others :: OtherCounts(v, x))
  }

  /** Directories stand strictly below their parents, so nothing is above
      itself. */
  ghost predicate Ranked<I, N>(v: Namespace<I, N>, rank: I -> nat) {
    forall x | x in v.dirs && x != v.root :: x in v.parent && v.parent[x] in v.dirs && rank(v.parent[x]) < rank(x)
  }

  ghost predicate IsTree<I, N>(v: Namespace<I, N>, rank: I -> nat) {
    Sane(v) && NamesLead(v) && CountsHold(v) && Ranked(v, rank)
  }

  // ------------------------------------------------------------ counting names

  lemma OneMore<T>(s: set<T>, t: set<T>, x: T)
    requires x !in s && t == s + {x}
    ensures |t| == |s| + 1
  {
  }

  ghost predicate Gains<I, N>(v: Namespace<I, N>, after: Namespace<I, N>, e: Place<I, N>, ino: I) {
    e !in v.names && after.names == v.names[e := ino]
  }

  lemma SameNames<I, N>(v: Namespace<I, N>, after: Namespace<I, N>, e: Place<I, N>, ino: I, x: I)
    requires Gains(v, after, e, ino) && x != ino
    ensures NamesOf(after, x) == NamesOf(v, x)
  {
  }

  lemma MoreNames<I, N>(v: Namespace<I, N>, after: Namespace<I, N>, e: Place<I, N>, ino: I)
    requires Gains(v, after, e, ino)
    ensures |NamesOf(after, ino)| == |NamesOf(v, ino)| + 1
  {
    OneMore(NamesOf(v, ino), NamesOf(after, ino), e);
  }

  /** `after` may hold one directory more, which nothing led to before. */
  lemma SameSubdirectories<I, N>(v: Namespace<I, N>, after: Namespace<I, N>, e: Place<I, N>, ino: I, d: I)
    requires Gains(v, after, e, ino) && (d != e.dir || ino !in after.dirs)
    requires forall f | f in v.names :: v.names[f] in after.dirs <==> v.names[f] in v.dirs
    ensures Subdirectories(after, d) == Subdirectories(v, d)
  {
  }

  lemma MoreSubdirectories<I, N>(v: Namespace<I, N>, after: Namespace<I, N>, e: Place<I, N>, ino: I)
    requires Gains(v, after, e, ino) && ino in after.dirs
    requires forall f | f in v.names :: v.names[f] in after.dirs <==> v.names[f] in v.dirs
    ensures |Subdirectories(after, e.dir)| == |Subdirectories(v, e.dir)| + 1
  {
    OneMore(Subdirectories(v, e.dir), Subdirectories(after, e.dir), e);
  }

  // ------------------------------------------------------------ the moves

  /** Another name for something that is not a directory. */
  function Linked<I(==), N(==)>(v: Namespace<I, N>, e: Place<I, N>, ino: I): Namespace<I, N>
    requires ino in v.count
  {
    v.(names := v.names[e := ino], count := v.count[ino := v.count[ino] + 1])
  }

  /** A file, a symlink or the like, just made, with its one name. */
  function MadeOther<I(==), N(==)>(v: Namespace<I, N>, e: Place<I, N>, ino: I): Namespace<I, N> {
    v.(others := v.others + {ino}, names := v.names[e := ino], count := v.count[ino := 1])
  }

  /** A directory just made, whose `..` is a name for its parent. */
  function MadeDir<I(==), N(==)>(v: Namespace<I, N>, e: Place<I, N>, ino: I): Namespace<I, N>
    requires e.dir in v.count
  {
    v.(dirs := v.dirs + {ino}, parent := v.parent[ino := e.dir], names := v.names[e := ino],
       count := v.count[ino := 2][e.dir := v.count[e.dir] + 1])
  }

  /** One of several names taken away. */
  function LostName<I(==), N(==)>(v: Namespace<I, N>, e: Place<I, N>): Namespace<I, N>
    requires e in v.names && v.names[e] in v.count
  {
    var ino := v.names[e];
    v.(names := v.names - {e}, count := v.count[ino := v.count[ino] - 1])
  }

  /** The last name taken away, and what it led to with it. */
  function LostOther<I(==), N(==)>(v: Namespace<I, N>, e: Place<I, N>): Namespace<I, N>
    requires e in v.names
  {
    var ino := v.names[e];
    v.(others := v.others - {ino}, names := v.names - {e}, count := v.count - {ino})
  }

  function LostDir<I(==), N(==)>(v: Namespace<I, N>, e: Place<I, N>): Namespace<I, N>
    requires e in v.names && e.dir in v.count
  {
    var ino := v.names[e];
    v.(dirs := v.dirs - {ino}, parent := v.parent - {ino}, names := v.names - {e},
       count := v.count[e.dir := v.count[e.dir] - 1] - {ino})
  }

  function MovedOther<I(==), N(==)>(v: Namespace<I, N>, from: Place<I, N>, to: Place<I, N>): Namespace<I, N>
    requires from in v.names
  {
    v.(names := (v.names - {from})[to := v.names[from]])
  }

  function MovedDir<I(==), N(==)>(v: Namespace<I, N>, from: Place<I, N>, to: Place<I, N>): Namespace<I, N>
    requires from in v.names && from.dir in v.count && to.dir in v.count
  {
    var ino := v.names[from];
    var less := v.count[from.dir := v.count[from.dir] - 1];
    v.(parent := v.parent[ino := to.dir], names := (v.names - {from})[to := ino],
       count := less[to.dir := less[to.dir] + 1])
  }

  // ------------------------------------------------------------ making

  ghost predicate CanHold<I, N>(v: Namespace<I, N>, rank: I -> nat, e: Place<I, N>) {
    IsTree(v, rank) && e.dir in v.dirs && e !in v.names
  }

  lemma LinkedCounts<I, N>(v: Namespace<I, N>, rank: I -> nat, e: Place<I, N>, ino: I)
    requires CanHold(v, rank, e) && ino in v.others
    ensures CountsHold(Linked(v, e, ino))
  {
    var after := Linked(v, e, ino);
    MoreNames(v, after, e, ino);
    assert OtherCounts(v, ino);
    forall x | x in after.dirs ensures DirCounts(after, x) {
      assert DirCounts(v, x);
      SameNames(v, after, e, ino, x);
      SameSubdirectories(v, after, e, ino, x);
    }
    forall x | x in after.others ensures OtherCounts(after, x) {
      assert OtherCounts(v, x);
      if x != ino { SameNames(v, after, e, ino, x); }
    }
  }

  lemma LinkedIsTree<I, N>(v: Namespace<I, N>, rank: I -> nat, e: Place<I, N>, ino: I)
    requires CanHold(v, rank, e) && ino in v.others
    ensures IsTree(Linked(v, e, ino), rank)
  {
    LinkedCounts(v, rank, e, ino);
    var after := Linked(v, e, ino);
    forall f | f in after.names ensures NameLeads(after, f) {
      assert f != e ==> NameLeads(v, f);
    }
  }

  ghost predicate IsNew<I, N>(v: Namespace<I, N>, ino: I) {
    ino !in v.dirs + v.others
  }

  lemma NewHasNoNames<I, N>(v: Namespace<I, N>, rank: I -> nat, ino: I)
    requires IsTree(v, rank) && IsNew(v, ino)
    ensures NamesOf(v, ino) == {} && Subdirectories(v, ino) == {}
    ensures forall f | f in v.names :: v.names[f] != ino && f.dir != ino
  {
  }

  lemma MadeOtherCounts<I, N>(v: Namespace<I, N>, rank: I -> nat, e: Place<I, N>, ino: I)
    requires CanHold(v, rank, e) && IsNew(v, ino)
    ensures CountsHold(MadeOther(v, e, ino))
  {
    var after := MadeOther(v, e, ino);
    NewHasNoNames(v, rank, ino);
    MoreNames(v, after, e, ino);
    forall x | x in after.dirs ensures DirCounts(after, x) {
      assert DirCounts(v, x);
      SameNames(v, after, e, ino, x);
      SameSubdirectories(v, after, e, ino, x);
    }
    forall x | x in after.others ensures OtherCounts(after, x) {
      if x != ino {
        assert OtherCounts(v, x);
        SameNames(v, after, e, ino, x);
      }
    }
  }

  lemma MadeOtherIsTree<I, N>(v: Namespace<I, N>, rank: I -> nat, e: Place<I, N>, ino: I)
    requires CanHold(v, rank, e) && IsNew(v, ino)
    ensures IsTree(MadeOther(v, e, ino), rank)
  {
    MadeOtherCounts(v, rank, e, ino);
    var after := MadeOther(v, e, ino);
    forall f | f in after.names ensures NameLeads(after, f) {
      assert f != e ==> NameLeads(v, f);
    }
  }

  function RankBelow<I(==)>(rank: I -> nat, ino: I, parent: I): I -> nat {
    x => if x == ino then rank(parent) + 1 else rank(x)
  }

  lemma MadeDirCounts<I, N>(v: Namespace<I, N>, rank: I -> nat, e: Place<I, N>, ino: I)
    requires CanHold(v, rank, e) && IsNew(v, ino)
    ensures CountsHold(MadeDir(v, e, ino))
  {
    var after := MadeDir(v, e, ino);
    NewHasNoNames(v, rank, ino);
    MoreNames(v, after, e, ino);
    MoreSubdirectories(v, after, e, ino);
    forall x | x in after.dirs ensures DirCounts(after, x) {
      if x != ino {
        assert DirCounts(v, x);
        SameNames(v, after, e, ino, x);
      }
      if x != e.dir { SameSubdirectories(v, after, e, ino, x); }
    }
    forall x | x in after.others ensures OtherCounts(after, x) {
      assert OtherCounts(v, x);
      SameNames(v, after, e, ino, x);
    }
  }

  lemma MadeDirLeads<I, N>(v: Namespace<I, N>, rank: I -> nat, e: Place<I, N>, ino: I)
    requires CanHold(v, rank, e) && IsNew(v, ino)
    ensures NamesLead(MadeDir(v, e, ino)) && Ranked(MadeDir(v, e, ino), RankBelow(rank, ino, e.dir))
  {
    NewHasNoNames(v, rank, ino);
    var after := MadeDir(v, e, ino);
    forall f | f in after.names ensures NameLeads(after, f) {
      assert f != e ==> NameLeads(v, f);
    }
  }

  lemma MadeDirIsSane<I, N>(v: Namespace<I, N>, rank: I -> nat, e: Place<I, N>, ino: I)
    requires CanHold(v, rank, e) && IsNew(v, ino)
    ensures Sane(MadeDir(v, e, ino))
  {
  }

  lemma MadeDirIsTree<I, N>(v: Namespace<I, N>, rank: I -> nat, e: Place<I, N>, ino: I)
    requires CanHold(v, rank, e) && IsNew(v, ino)
    ensures IsTree(MadeDir(v, e, ino), RankBelow(rank, ino, e.dir))
  {
    MadeDirCounts(v, rank, e, ino);
    MadeDirLeads(v, rank, e, ino);
    MadeDirIsSane(v, rank, e, ino);
  }

  // ------------------------------------------------------------ losing

  /** What losing a name leaves is what gaining it again would undo. */
  lemma LosingIsGaining<I, N>(v: Namespace<I, N>, less: Namespace<I, N>, e: Place<I, N>)
    requires e in v.names && less.names == v.names - {e}
    ensures Gains(less, v, e, v.names[e])
  {
  }

  /** Another name leading to the same place is a name of something that is not
      a directory and counts more than one. */
  lemma OtherNameRemains<I, N>(v: Namespace<I, N>, rank: I -> nat, e: Place<I, N>, f: Place<I, N>)
    requires IsTree(v, rank) && e in v.names && f in v.names && f != e && v.names[f] == v.names[e]
    ensures v.names[e] in v.others && v.count[v.names[e]] > 1
  {
    var ino := v.names[e];
    assert NameLeads(v, e);
    var less := v.(names := v.names - {e});
    LosingIsGaining(v, less, e);
    MoreNames(less, v, e, ino);
    assert f in NamesOf(less, ino);
    assert ino in v.dirs ==> DirCounts(v, ino);
    assert ino in v.others ==> OtherCounts(v, ino);
  }

  lemma LostNameIsTree<I, N>(v: Namespace<I, N>, rank: I -> nat, e: Place<I, N>)
    requires IsTree(v, rank) && e in v.names && v.names[e] in v.others && v.count[v.names[e]] > 1
    ensures IsTree(LostName(v, e), rank)
  {
    var ino, after := v.names[e], LostName(v, e);
    LosingIsGaining(v, after, e);
    MoreNames(after, v, e, ino);
    assert OtherCounts(v, ino);
    forall x | x in after.dirs ensures DirCounts(after, x) {
      assert DirCounts(v, x);
      SameNames(after, v, e, ino, x);
      SameSubdirectories(after, v, e, ino, x);
    }
    forall x | x in after.others ensures OtherCounts(after, x) {
      assert OtherCounts(v, x);
      if x != ino { SameNames(after, v, e, ino, x); }
    }
    forall f | f in after.names ensures NameLeads(after, f) {
      assert NameLeads(v, f);
    }
  }

  lemma LostOtherLeads<I, N>(v: Namespace<I, N>, rank: I -> nat, e: Place<I, N>)
    requires IsTree(v, rank) && e in v.names && v.names[e] in v.others && v.count[v.names[e]] == 1
    ensures NamesLead(LostOther(v, e))
  {
    var ino, after := v.names[e], LostOther(v, e);
    forall f | f in after.names ensures NameLeads(after, f) {
      assert NameLeads(v, f);
      if v.names[f] == ino { OtherNameRemains(v, rank, e, f); }
    }
  }

  lemma LostOtherIsTree<I, N>(v: Namespace<I, N>, rank: I -> nat, e: Place<I, N>)
    requires IsTree(v, rank) && e in v.names && v.names[e] in v.others && v.count[v.names[e]] == 1
    ensures IsTree(LostOther(v, e), rank)
  {
    var ino, after := v.names[e], LostOther(v, e);
    LostOtherLeads(v, rank, e);
    LosingIsGaining(v, after, e);
    forall x | x in after.dirs ensures DirCounts(after, x) {
      assert DirCounts(v, x);
      SameNames(after, v, e, ino, x);
      SameSubdirectories(after, v, e, ino, x);
    }
    forall x | x in after.others ensures OtherCounts(after, x) {
      assert OtherCounts(v, x);
      SameNames(after, v, e, ino, x);
    }
  }

  ghost predicate IsEmpty<I, N>(v: Namespace<I, N>, ino: I) {
    forall f | f in v.names :: f.dir != ino
  }

  lemma LostDirLeads<I, N>(v: Namespace<I, N>, rank: I -> nat, e: Place<I, N>)
    requires IsTree(v, rank) && e in v.names && v.names[e] in v.dirs && IsEmpty(v, v.names[e])
    ensures e.dir in v.count && e.dir != v.names[e]
    ensures NamesLead(LostDir(v, e)) && Ranked(LostDir(v, e), rank)
    ensures forall f | f in v.names && f != e :: v.names[f] != v.names[e]
  {
    assert NameLeads(v, e);
    var ino, after := v.names[e], LostDir(v, e);
    forall f | f in after.names ensures NameLeads(after, f) && v.names[f] != ino {
      assert NameLeads(v, f);
      if v.names[f] == ino { OtherNameRemains(v, rank, e, f); }
    }
    forall x | x in after.dirs && x != v.root ensures after.parent[x] != ino {
      assert DirCounts(v, x);
      var f :| f in NamesOf(v, x);
      assert NameLeads(v, f);
    }
  }

  lemma LostDirCounts<I, N>(v: Namespace<I, N>, rank: I -> nat, e: Place<I, N>)
    requires IsTree(v, rank) && e in v.names && v.names[e] in v.dirs && IsEmpty(v, v.names[e])
    requires e.dir in v.count
    ensures CountsHold(LostDir(v, e))
  {
    LostDirLeads(v, rank, e);
    var ino, after := v.names[e], LostDir(v, e);
    LosingIsGaining(v, after, e);
    MoreSubdirectories(after, v, e, ino);
    forall x | x in after.dirs ensures DirCounts(after, x) {
      assert DirCounts(v, x);
      SameNames(after, v, e, ino, x);
      if x != e.dir { SameSubdirectories(after, v, e, ino, x); }
    }
    forall x | x in after.others ensures OtherCounts(after, x) {
      assert OtherCounts(v, x);
      SameNames(after, v, e, ino, x);
    }
  }

  lemma LostDirIsTree<I, N>(v: Namespace<I, N>, rank: I -> nat, e: Place<I, N>)
    requires IsTree(v, rank) && e in v.names && v.names[e] in v.dirs && IsEmpty(v, v.names[e])
    ensures e.dir in v.count && IsTree(LostDir(v, e), rank)
  {
    LostDirLeads(v, rank, e);
    LostDirCounts(v, rank, e);
    assert NameLeads(v, e);
  }

  // ------------------------------------------------------------ moving

  /** Whether `x` is `top` or somewhere below it. */
  ghost predicate IsWithin<I, N>(v: Namespace<I, N>, rank: I -> nat, top: I, x: I)
    requires Ranked(v, rank)
    decreases rank(x)
  {
    x == top || (x in v.dirs && x != v.root && IsWithin(v, rank, top, v.parent[x]))
  }

  ghost function RankMoved<I, N>(v: Namespace<I, N>, rank: I -> nat, top: I, under: I): I -> nat
    requires Ranked(v, rank)
  {
    x => if IsWithin(v, rank, top, x) then rank(x) + rank(under) + 1 else rank(x)
  }

  lemma MovedNames<I, N>(v: Namespace<I, N>, after: Namespace<I, N>, from: Place<I, N>, to: Place<I, N>, x: I)
    requires from in v.names && to !in v.names && after.names == (v.names - {from})[to := v.names[from]]
    ensures |NamesOf(after, x)| == |NamesOf(v, x)|
  {
    var mid := v.(names := v.names - {from});
    LosingIsGaining(v, mid, from);
    if x == v.names[from] {
      MoreNames(mid, v, from, x);
      MoreNames(mid, after, to, x);
    } else {
      SameNames(mid, v, from, v.names[from], x);
      SameNames(mid, after, to, v.names[from], x);
    }
  }

  lemma MovedOtherIsTree<I, N>(v: Namespace<I, N>, rank: I -> nat, from: Place<I, N>, to: Place<I, N>)
    requires CanHold(v, rank, to) && from in v.names && v.names[from] in v.others
    ensures IsTree(MovedOther(v, from, to), rank)
  {
    var after := MovedOther(v, from, to);
    forall x | x in after.dirs ensures DirCounts(after, x) {
      assert DirCounts(v, x);
      MovedNames(v, after, from, to, x);
      assert Subdirectories(after, x) == Subdirectories(v, x);
    }
    forall x | x in after.others ensures OtherCounts(after, x) {
      assert OtherCounts(v, x);
      MovedNames(v, after, from, to, x);
    }
    forall f | f in after.names ensures NameLeads(after, f) {
      assert NameLeads(v, from) && (f != to ==> NameLeads(v, f));
    }
  }

  lemma MovedDirLeads<I, N>(v: Namespace<I, N>, rank: I -> nat, from: Place<I, N>, to: Place<I, N>)
    requires CanHold(v, rank, to) && from in v.names && v.names[from] in v.dirs && from.dir in v.count
    requires !IsWithin(v, rank, v.names[from], to.dir)
    ensures NamesLead(MovedDir(v, from, to))
    ensures Ranked(MovedDir(v, from, to), RankMoved(v, rank, v.names[from], to.dir))
  {
    var ino, after := v.names[from], MovedDir(v, from, to);
    var ranked := RankMoved(v, rank, ino, to.dir);
    assert NameLeads(v, from);
    forall f | f in after.names ensures NameLeads(after, f) {
      assert f != to ==> NameLeads(v, f);
      if f != to && v.names[f] == ino { OtherNameRemains(v, rank, from, f); }
    }
    forall x | x in after.dirs && x != v.root
      ensures x in after.parent && after.parent[x] in after.dirs && ranked(after.parent[x]) < ranked(x)
    {
      assert x != ino ==> (IsWithin(v, rank, ino, x) <==> IsWithin(v, rank, ino, v.parent[x]));
    }
  }

  lemma MovedDirCount<I, N>(v: Namespace<I, N>, rank: I -> nat, from: Place<I, N>, to: Place<I, N>, x: I)
    requires CanHold(v, rank, to) && from in v.names && v.names[from] in v.dirs && from.dir in v.count
    requires x in v.dirs
    ensures DirCounts(MovedDir(v, from, to), x)
  {
    var ino, after := v.names[from], MovedDir(v, from, to);
    var mid := v.(names := v.names - {from});
    assert DirCounts(v, x);
    MovedNames(v, after, from, to, x);
    LosingIsGaining(v, mid, from);
    if x == from.dir { MoreSubdirectories(mid, v, from, ino); } else { SameSubdirectories(mid, v, from, ino, x); }
    if x == to.dir { MoreSubdirectories(mid, after, to, ino); } else { SameSubdirectories(mid, after, to, ino, x); }
  }

  lemma MovedDirCounts<I, N>(v: Namespace<I, N>, rank: I -> nat, from: Place<I, N>, to: Place<I, N>)
    requires CanHold(v, rank, to) && from in v.names && v.names[from] in v.dirs && from.dir in v.count
    ensures CountsHold(MovedDir(v, from, to))
  {
    var after := MovedDir(v, from, to);
    forall x | x in after.dirs ensures DirCounts(after, x) {
      MovedDirCount(v, rank, from, to, x);
    }
    assert NameLeads(v, from);
    forall x | x in after.others ensures OtherCounts(after, x) {
      assert OtherCounts(v, x);
      MovedNames(v, after, from, to, x);
    }
  }

  lemma MovedDirIsSane<I, N>(v: Namespace<I, N>, rank: I -> nat, from: Place<I, N>, to: Place<I, N>)
    requires CanHold(v, rank, to) && from in v.names && v.names[from] in v.dirs && from.dir in v.count
    ensures Sane(MovedDir(v, from, to))
  {
    assert NameLeads(v, from);
  }

  /** A directory moved anywhere but below itself leaves a tree. */
  lemma MovedDirIsTree<I, N>(v: Namespace<I, N>, rank: I -> nat, from: Place<I, N>, to: Place<I, N>)
    requires CanHold(v, rank, to) && from in v.names && v.names[from] in v.dirs && from.dir in v.count
    requires !IsWithin(v, rank, v.names[from], to.dir)
    ensures IsTree(MovedDir(v, from, to), RankMoved(v, rank, v.names[from], to.dir))
  {
    MovedDirLeads(v, rank, from, to);
    MovedDirCounts(v, rank, from, to);
    MovedDirIsSane(v, rank, from, to);
  }

  /** The directory `k` steps up from `x`. The root is its own parent. */
  ghost function Above<I, N>(v: Namespace<I, N>, x: I, k: nat): I {
    if k == 0 || x !in v.parent then x else Above(v, v.parent[x], k - 1)
  }

  /** Whether some number of steps up from `x` leads to `top`. */
  ghost predicate IsInside<I, N>(v: Namespace<I, N>, top: I, x: I) {
    exists k: nat :: Above(v, x, k) == top
  }

  lemma {:induction false} RootStaysRoot<I, N>(v: Namespace<I, N>, rank: I -> nat, k: nat)
    requires IsTree(v, rank)
    ensures Above(v, v.root, k) == v.root
  {
    if k != 0 { RootStaysRoot(v, rank, k - 1); }
  }

  lemma {:induction false} AboveIsWithin<I, N>(v: Namespace<I, N>, rank: I -> nat, top: I, x: I, k: nat)
    requires IsTree(v, rank) && Above(v, x, k) == top
    ensures IsWithin(v, rank, top, x)
  {
    if k != 0 && x in v.parent {
      if x == v.root { RootStaysRoot(v, rank, k); } else { AboveIsWithin(v, rank, top, v.parent[x], k - 1); }
    }
  }

  lemma {:induction false} WithinIsAbove<I, N>(v: Namespace<I, N>, rank: I -> nat, top: I, x: I) returns (k: nat)
    requires IsTree(v, rank) && IsWithin(v, rank, top, x)
    ensures Above(v, x, k) == top
    decreases rank(x)
  {
    k := 0;
    if x != top {
      k := WithinIsAbove(v, rank, top, v.parent[x]);
      k := k + 1;
    }
  }

  /** In a tree, walking up either meets `top` or ends at the root. */
  lemma InsideIsWithin<I, N>(v: Namespace<I, N>, rank: I -> nat, top: I, x: I)
    requires IsTree(v, rank)
    ensures IsInside(v, top, x) <==> IsWithin(v, rank, top, x)
  {
    if IsWithin(v, rank, top, x) {
      var k := WithinIsAbove(v, rank, top, x);
    }
    if IsInside(v, top, x) {
      var k: nat :| Above(v, x, k) == top;
      AboveIsWithin(v, rank, top, x, k);
    }
  }

  /** Losing directories brings nothing under another. */
  lemma {:induction false} StillOutside<I, N>(
      v: Namespace<I, N>, less: Namespace<I, N>, rank: I -> nat, top: I, x: I)
    requires IsTree(v, rank) && IsTree(less, rank) && less.root == v.root && less.dirs <= v.dirs
    requires forall y | y in less.parent :: y in v.parent && less.parent[y] == v.parent[y]
    ensures IsWithin(less, rank, top, x) ==> IsWithin(v, rank, top, x)
    decreases rank(x)
  {
    if x != top && x in less.dirs && x != v.root { StillOutside(v, less, rank, top, less.parent[x]); }
  }

  // ------------------------------------------------------------ from the root

  /** What a path of names leads to. */
  function Find<I(==), N(==)>(v: Namespace<I, N>, from: I, path: seq<N>): Option<I> {
    if path == [] then Some(from)
    else if Place(from, path[0]) in v.names then Find(v, v.names[Place(from, path[0])], path[1..])
    else None
  }

  lemma {:induction false} FindOneMore<I, N>(v: Namespace<I, N>, from: I, path: seq<N>, n: N)
    ensures Find(v, from, path + [n])
         == match Find(v, from, path) {
              case Some(d) => if Place(d, n) in v.names then Some(v.names[Place(d, n)]) else None
              case None => None
            }
  {
    if path == [] {
      assert (path + [n])[1..] == [];
    } else {
      assert (path + [n])[1..] == path[1..] + [n];
      if Place(from, path[0]) in v.names { FindOneMore(v, v.names[Place(from, path[0])], path[1..], n); }
    }
  }

  /** Everything live can be reached from the root. */
  lemma {:induction false} EverythingIsReached<I, N>(v: Namespace<I, N>, rank: I -> nat, x: I) returns (path: seq<N>)
    requires IsTree(v, rank) && x in v.dirs + v.others
    ensures Find(v, v.root, path) == Some(x)
    decreases x !in v.dirs, rank(x)
  {
    if x == v.root { return []; }
    if x in v.dirs { assert DirCounts(v, x); } else { assert OtherCounts(v, x); }
    assert NamesOf(v, x) != {};
    var e :| e in NamesOf(v, x);
    assert NameLeads(v, e);
    path := EverythingIsReached(v, rank, e.dir);
    FindOneMore(v, v.root, path, e.name);
    path := path + [e.name];
  }

  lemma OneNameOfADirectory<I, N>(v: Namespace<I, N>, rank: I -> nat, e: Place<I, N>, f: Place<I, N>)
    requires IsTree(v, rank) && e in v.names && f in v.names && v.names[e] == v.names[f] && v.names[e] in v.dirs
    ensures e == f
  {
    if e != f { OtherNameRemains(v, rank, e, f); }
  }

  /** The last step of a path, from the directory holding what it leads to. */
  lemma LastStep<I, N>(v: Namespace<I, N>, rank: I -> nat, path: seq<N>) returns (e: Place<I, N>)
    requires IsTree(v, rank) && path != [] && Find(v, v.root, path).Some?
    ensures e.name == path[|path| - 1] && Find(v, v.root, path[..|path| - 1]) == Some(e.dir)
    ensures NameLeads(v, e) && v.names[e] == Find(v, v.root, path).value
  {
    var up := path[..|path| - 1];
    assert path == up + [path[|path| - 1]];
    FindOneMore(v, v.root, up, path[|path| - 1]);
    e := Place(Find(v, v.root, up).value, path[|path| - 1]);
  }

  /** Two paths to one directory end in the same name of it. */
  lemma SameLastStep<I, N>(v: Namespace<I, N>, rank: I -> nat, p: seq<N>, q: seq<N>)
    requires IsTree(v, rank) && p != [] && q != [] && Find(v, v.root, p).Some?
             && Find(v, v.root, q) == Find(v, v.root, p)
    requires Find(v, v.root, p).value in v.dirs
    ensures p[|p| - 1] == q[|q| - 1]
    ensures Find(v, v.root, p[..|p| - 1]).Some? && Find(v, v.root, p[..|p| - 1]) == Find(v, v.root, q[..|q| - 1])
    ensures Find(v, v.root, p[..|p| - 1]).value in v.dirs
  {
    var d := LastStep(v, rank, p);
    var e := LastStep(v, rank, q);
    OneNameOfADirectory(v, rank, d, e);
  }

  /** And a directory by one path only, so nothing is inside itself. */
  lemma {:induction false} OnePathToADirectory<I, N>(v: Namespace<I, N>, rank: I -> nat, p: seq<N>, q: seq<N>)
    requires IsTree(v, rank) && Find(v, v.root, p).Some? && Find(v, v.root, p) == Find(v, v.root, q)
    requires Find(v, v.root, p).value in v.dirs
    ensures p == q
    decreases |p|
  {
    if p != [] && q != [] {
      SameLastStep(v, rank, p, q);
      OnePathToADirectory(v, rank, p[..|p| - 1], q[..|q| - 1]);
      SameButForTheLast(p, q);
    } else if p != [] {
      var d := LastStep(v, rank, p);
    } else if q != [] {
      var e := LastStep(v, rank, q);
    }
  }

  lemma SameButForTheLast<N>(p: seq<N>, q: seq<N>)
    requires p != [] && q != [] && p[..|p| - 1] == q[..|q| - 1] && p[|p| - 1] == q[|q| - 1]
    ensures p == q
  {
    assert p == p[..|p| - 1] + [p[|p| - 1]] && q == q[..|q| - 1] + [q[|q| - 1]];
  }
}
