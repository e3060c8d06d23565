/** What each answer does to the namespace: which requests are granted, and what
    is there afterwards. */
module Answers {
  import opened Paths
  import opened Namespaces
  import opened Inodes
  import opened Changes

  /** What a file or a symlink holds is as it was, and a directory is still one. */
  ghost predicate KeepsContents<N(!new)>(nodes: Table<N>, after: Table<N>) {
    |nodes| <= |after| && forall x | 1 <= x <= |nodes| && Live(after, x) :: KeepsContent(nodes, after, x)
  }

  predicate KeepsContent<N(==)>(nodes: Table<N>, after: Table<N>, x: int)
    requires 1 <= x <= |nodes| <= |after|
  {
    if IsDir(nodes, x) then IsDir(after, x) else after[x - 1].kind == nodes[x - 1].kind
  }

  lemma LinkKeepsContents<N(!new)>(nodes: Table<N>, parent: int, name: N, ino: int)
    requires Live(nodes, ino) && IsFree(nodes, parent, name)
    ensures Link(nodes, parent, name, ino).Some? && KeepsContents(nodes, Link(nodes, parent, name, ino).value)
  {
  }

  lemma DetachKeepsContents<N(!new)>(nodes: Table<N>, parent: int, name: N)
    requires Leads(nodes, parent, name)
    ensures KeepsContents(nodes, Detach(nodes, parent, name))
  {
  }

  lemma UnlinkKeepsContents<N(!new)>(nodes: Table<N>, parent: int, name: N)
    requires Leads(nodes, parent, name)
    ensures KeepsContents(nodes, Unlink(nodes, parent, name))
  {
    DetachKeepsContents(nodes, parent, name);
    var ino, left := Lookup(nodes, parent, name).value, Detach(nodes, parent, name);
    assert WithKind(left, ino, Gone)[ino - 1].kind == Gone;
  }

  // ------------------------------------------------------------ making

  /** A new node is what was asked for. A directory starts with nothing in it. */
  predicate IsMadeAs<N(==)>(kind: Kind<N>, making: Making) {
    match making
    case NewDirectory => kind.Directory? && kind.children == map[]
    case NewFile => kind == File(Backed)
    case NewSymlink(target) => kind == Symlink(target)
    case NewSpecial => kind == Special
  }

  lemma MakingIsGranted<N(!new)>(nodes: Table<N>, parent: int, name: N, making: Making)
    requires IsATree(nodes)
    ensures var v, answer := View(nodes), Answered(nodes, Make(parent, name, making));
            && (answer.errno == Done <==> parent in v.dirs && Place(parent, name) !in v.names)
            && (answer.errno == Enoent <==> parent !in v.dirs + v.others)
            && (answer.errno == Enotdir <==> parent in v.others)
            && (answer.errno == Eexist <==> Place(parent, name) in v.names)
  {
    ViewLooksUp(nodes, parent, name);
    assert ShowsAt(nodes, View(nodes), parent);
  }

  lemma MakingKeepsContents<N(!new)>(nodes: Table<N>, parent: int, name: N, making: Making)
    requires IsFree(nodes, parent, name)
    ensures var after := Made(nodes, parent, name, making).nodes;
            |after| == |nodes| + 1 && IsMadeAs(after[|nodes|].kind, making) && KeepsContents(nodes, after)
  {
    LinkKeepsContents(nodes + [Fresh<N>(making)], parent, name, |nodes| + 1);
  }

  /** A name more, for one inode more. */
  ghost predicate GainsAName<N>(v: Namespace<int, N>, after: Namespace<int, N>, e: Place<int, N>, ino: int,
                                directory: bool) {
    && after.names == v.names[e := ino]
    && after.dirs == v.dirs + (if directory then {ino} else {})
    && after.others == v.others + (if directory then {} else {ino})
    && (directory ==> ino in after.parent && after.parent[ino] == e.dir)
  }

  lemma MakingGains<N(!new)>(nodes: Table<N>, parent: int, name: N, making: Making)
    requires IsFree(nodes, parent, name)
    ensures GainsAName(View(nodes), View(Made(nodes, parent, name, making).nodes), Place(parent, name), |nodes| + 1,
                       making.NewDirectory?)
  {
    MadeView(nodes, parent, name, making);
  }

  /** The name leads to a new node of the sort asked for, and nothing else has
      changed. */
  lemma MakingMakes<N(!new)>(nodes: Table<N>, parent: int, name: N, making: Making)
    requires IsATree(nodes) && Answered(nodes, Make(parent, name, making)).errno == Done
    ensures var after := Answered(nodes, Make(parent, name, making)).nodes;
            && |after| == |nodes| + 1 && IsMadeAs(after[|nodes|].kind, making) && KeepsContents(nodes, after)
            && GainsAName(View(nodes), View(after), Place(parent, name), |nodes| + 1, making.NewDirectory?)
  {
    MakingGains(nodes, parent, name, making);
    MakingKeepsContents(nodes, parent, name, making);
  }

  // ------------------------------------------------------------ removing

  lemma HoldingNothing<N(!new)>(nodes: Table<N>, ino: int)
    requires IsDir(nodes, ino)
    ensures HoldsNothing(nodes, ino) <==> IsEmpty(View(nodes), ino)
  {
    if HoldsNothing(nodes, ino) {
      NothingIsEmpty(nodes, ino);
    } else {
      var n :| n in nodes[ino - 1].kind.children;
      ViewLooksUp(nodes, ino, n);
      assert Place(ino, n) in View(nodes).names;
    }
  }

  /** An unlink is granted for something that is no directory, an rmdir for an
      empty one. */
  lemma RemovalIsGranted<N(!new)>(nodes: Table<N>, parent: int, name: N, directory: bool)
    requires IsATree(nodes)
    ensures var v, e, answer := View(nodes), Place(parent, name), Answered(nodes, Remove(parent, name, directory));
            && (answer.errno == Enoent <==> e !in v.names)
            && (answer.errno == Done <==>
                  e in v.names && if directory then v.names[e] in v.dirs && IsEmpty(v, v.names[e])
                                  else v.names[e] in v.others)
            && (answer.errno == Enotdir <==> directory && e in v.names && v.names[e] in v.others)
            && (answer.errno == Eisdir <==> !directory && e in v.names && v.names[e] in v.dirs)
            && (answer.errno == Enotempty <==>
                  directory && e in v.names && v.names[e] in v.dirs && !IsEmpty(v, v.names[e]))
  {
    ViewLooksUp(nodes, parent, name);
    if Lookup(nodes, parent, name).Some? {
      var ino := Lookup(nodes, parent, name).value;
      NamesAreLive(nodes, parent, name);
      assert ShowsAt(nodes, View(nodes), ino);
      if IsDir(nodes, ino) { HoldingNothing(nodes, ino); }
    }
  }

  /** The name is gone, and what it led to when it had no other. */
  ghost predicate LosesTheName<N>(v: Namespace<int, N>, after: Namespace<int, N>, e: Place<int, N>)
    requires e in v.names
  {
    var gone := if NamesOf(v, v.names[e]) == {e} then {v.names[e]} else {};
    after.names == v.names - {e} && after.dirs == v.dirs - gone && after.others == v.others - gone
  }

  lemma LostLosesTheName<N(!new)>(nodes: Table<N>, rank: int -> nat, parent: int, name: N)
    requires IsTree(View(nodes), rank) && Lookup(nodes, parent, name).Some?
    requires HoldsNothing(nodes, Lookup(nodes, parent, name).value)
    ensures var v, e := View(nodes), Place(parent, name);
            e in v.names && e.dir in v.count && v.names[e] in v.count && LosesTheName(v, Lost(v, e), e)
  {
    NameIsLive(nodes, rank, parent, name);
    NothingIsEmpty(nodes, Lookup(nodes, parent, name).value);
    LastNameGoes(View(nodes), rank, Place(parent, name));
  }

  lemma UnlinkLosesTheName<N(!new)>(nodes: Table<N>, rank: int -> nat, parent: int, name: N)
    requires IsTree(View(nodes), rank) && Lookup(nodes, parent, name).Some?
    requires HoldsNothing(nodes, Lookup(nodes, parent, name).value)
    ensures Leads(nodes, parent, name) && Place(parent, name) in View(nodes).names
    ensures LosesTheName(View(nodes), View(Unlink(nodes, parent, name)), Place(parent, name))
  {
    NameIsLive(nodes, rank, parent, name);
    LostLosesTheName(nodes, rank, parent, name);
    UnlinkIsLost(nodes, parent, name);
  }

  lemma RemovalUnlinks<N(!new)>(nodes: Table<N>, parent: int, name: N, directory: bool)
    requires IsATree(nodes) && Answered(nodes, Remove(parent, name, directory)).errno == Done
    ensures Leads(nodes, parent, name) && HoldsNothing(nodes, Lookup(nodes, parent, name).value)
    ensures Answered(nodes, Remove(parent, name, directory)).nodes == Unlink(nodes, parent, name)
  {
    NamesAreLive(nodes, parent, name);
  }

  /** The name goes, and with its last name what it led to. */
  lemma RemovalRemoves<N(!new)>(nodes: Table<N>, parent: int, name: N, directory: bool)
    requires IsATree(nodes) && Answered(nodes, Remove(parent, name, directory)).errno == Done
    ensures var v, e, after := View(nodes), Place(parent, name), Answered(nodes, Remove(parent, name, directory)).nodes;
            e in v.names && LosesTheName(v, View(after), e) && KeepsContents(nodes, after)
  {
    var rank: int -> nat :| IsTree(View(nodes), rank);
    RemovalUnlinks(nodes, parent, name, directory);
    UnlinkLosesTheName(nodes, rank, parent, name);
    UnlinkKeepsContents(nodes, parent, name);
  }

  /** Losing a name loses what it led to just when it was the only one. */
  lemma LastNameGoes<N>(v: Namespace<int, N>, rank: int -> nat, e: Place<int, N>)
    requires IsTree(v, rank) && e in v.names && (v.names[e] in v.dirs ==> IsEmpty(v, v.names[e]))
    ensures e.dir in v.count && v.names[e] in v.count
    ensures LosesTheName(v, Lost(v, e), e)
  {
    var ino := v.names[e];
    assert NameLeads(v, e) && e in NamesOf(v, ino);
    if ino in v.dirs {
      assert DirCounts(v, ino);
      OnlyOne(NamesOf(v, ino), e);
    } else {
      assert OtherCounts(v, ino);
      if v.count[ino] == 1 { OnlyOne(NamesOf(v, ino), e); }
    }
  }

  lemma OnlyOne<T>(s: set<T>, x: T)
    requires x in s && |s| == 1
    ensures s == {x}
  {
    assert |s - {x}| == 0;
  }

  // ------------------------------------------------------------ linking

  /** A link is granted for anything but a directory. */
  lemma LinkIsGranted<N(!new)>(nodes: Table<N>, ino: int, parent: int, name: N)
    requires IsATree(nodes)
    ensures var v, e, answer := View(nodes), Place(parent, name), Answered(nodes, LinkTo(ino, parent, name));
            && (answer.errno == Done <==> ino in v.others && parent in v.dirs && e !in v.names)
            && (answer.errno == Eperm <==> ino in v.dirs)
            && (answer.errno == Eexist <==> ino in v.others && e in v.names)
            && (answer.errno == Enoent <==>
                  ino !in v.dirs && (ino !in v.others || (parent !in v.dirs && e !in v.names)))
  {
    ViewLooksUp(nodes, parent, name);
    assert ShowsAt(nodes, View(nodes), ino) && ShowsAt(nodes, View(nodes), parent);
  }

  /** One name more, for that very inode, and nothing else. */
  lemma LinkLinks<N(!new)>(nodes: Table<N>, ino: int, parent: int, name: N)
    requires IsATree(nodes) && Answered(nodes, LinkTo(ino, parent, name)).errno == Done
    ensures var v, after := View(nodes), Answered(nodes, LinkTo(ino, parent, name)).nodes;
            && View(after).names == v.names[Place(parent, name) := ino] && KeepsContents(nodes, after)
            && View(after).dirs == v.dirs && View(after).others == v.others && View(after).parent == v.parent
  {
    LinkIsLinked(nodes, parent, name, ino);
    LinkKeepsContents(nodes, parent, name, ino);
  }

  // ------------------------------------------------------------ renaming

  /** What stands at the target can give way: nothing, or, unless it may not be
      replaced, something of the same sort that holds nothing. */
  ghost predicate GivesWay<N>(v: Namespace<int, N>, ino: int, to: Place<int, N>, noReplace: bool) {
    to in v.names ==>
      && !noReplace && (ino in v.dirs <==> v.names[to] in v.dirs)
      && (v.names[to] in v.dirs ==> IsEmpty(v, v.names[to]))
  }

  ghost predicate CanMove<N>(v: Namespace<int, N>, from: Place<int, N>, to: Place<int, N>, noReplace: bool) {
    && from in v.names && to.dir in v.dirs && from != to
    && !IsInside(v, v.names[from], to.dir) && GivesWay(v, v.names[from], to, noReplace)
  }

  lemma ClearsIsGivingWay<N(!new)>(nodes: Table<N>, ino: int, newParent: int, newName: N, noReplace: bool)
    requires IsATree(nodes) && Live(nodes, ino)
    ensures Clears(nodes, ino, newParent, newName, noReplace) <==>
            GivesWay(View(nodes), ino, Place(newParent, newName), noReplace)
  {
    ViewLooksUp(nodes, newParent, newName);
    assert ShowsAt(nodes, View(nodes), ino);
    if Lookup(nodes, newParent, newName).Some? {
      var standing := Lookup(nodes, newParent, newName).value;
      NamesAreLive(nodes, newParent, newName);
      assert ShowsAt(nodes, View(nodes), standing);
      if IsDir(nodes, standing) { HoldingNothing(nodes, standing); }
    }
  }

  /** A rename is granted just when the name can be moved. */
  lemma RenameIsGranted<N(!new)>(
      nodes: Table<N>, parent: int, name: N, newParent: int, newName: N, noReplace: bool, exchange: bool)
    requires IsATree(nodes)
    ensures Answered(nodes, RenameTo(parent, name, newParent, newName, noReplace, exchange)).errno == Done <==>
            !exchange && CanMove(View(nodes), Place(parent, name), Place(newParent, newName), noReplace)
  {
    var rank: int -> nat :| IsTree(View(nodes), rank);
    ViewLooksUp(nodes, parent, name);
    assert ShowsAt(nodes, View(nodes), newParent);
    if Lookup(nodes, parent, name).Some? {
      NamesAreLive(nodes, parent, name);
      ClearsIsGivingWay(nodes, Lookup(nodes, parent, name).value, newParent, newName, noReplace);
      if !exchange && GoesAhead(nodes, parent, name, newParent, newName, noReplace) {
        AheadMoves(nodes, rank, parent, name, newParent, newName, noReplace);
      }
    }
  }

  /** A directory moved is held by the one its new name stands in. */
  ghost predicate MovesTheName<N>(
      v: Namespace<int, N>, after: Namespace<int, N>, from: Place<int, N>, to: Place<int, N>)
    requires from in v.names
  {
    var gone := if to in v.names && NamesOf(v, v.names[to]) == {to} then {v.names[to]} else {};
    && after.names == (v.names - {to} - {from})[to := v.names[from]]
    && after.dirs == v.dirs - gone && after.others == v.others - gone
    && (v.names[from] in v.dirs ==> v.names[from] in after.parent && after.parent[v.names[from]] == to.dir)
  }

  lemma ClearedLoses<N(!new)>(
      nodes: Table<N>, rank: int -> nat, ino: int, newParent: int, newName: N, noReplace: bool)
    requires IsTree(View(nodes), rank) && IsATree(nodes) && Clears(nodes, ino, newParent, newName, noReplace)
    ensures var v, to, cleared := View(nodes), Place(newParent, newName), Cleared(nodes, newParent, newName);
            && IsTree(View(cleared), rank)
            && (to in v.names ==> LosesTheName(v, View(cleared), to)) && (to !in v.names ==> cleared == nodes)
  {
    ViewLooksUp(nodes, newParent, newName);
    if Lookup(nodes, newParent, newName).Some? {
      UnlinkLosesTheName(nodes, rank, newParent, newName);
      UnlinkKeepsTheTree(nodes, rank, newParent, newName);
    }
  }

  lemma ClearedKeepsContents<N(!new)>(nodes: Table<N>, newParent: int, newName: N)
    requires IsATree(nodes)
    ensures KeepsContents(nodes, Cleared(nodes, newParent, newName))
  {
    if Lookup(nodes, newParent, newName).Some? {
      NamesAreLive(nodes, newParent, newName);
      UnlinkKeepsContents(nodes, newParent, newName);
    }
  }

  lemma MovedMovesTheName<N>(v: Namespace<int, N>, from: Place<int, N>, to: Place<int, N>)
    requires from in v.names && to !in v.names && from.dir in v.count && to.dir in v.count
    ensures MovesTheName(v, Moved(v, from, to), from, to)
  {
    assert v.names - {to} - {from} == v.names - {from};
  }

  lemma MoveMoves<N(!new)>(
      nodes: Table<N>, rank: int -> nat, parent: int, name: N, newParent: int, newName: N)
    requires IsTree(View(nodes), rank) && Lookup(nodes, parent, name).Some? && IsFree(nodes, newParent, newName)
    ensures Leads(nodes, parent, name) && Rename(nodes, parent, name, newParent, newName).Some?
    ensures var v, from, to := View(nodes), Place(parent, name), Place(newParent, newName);
            var after := Rename(nodes, parent, name, newParent, newName).value;
            from in v.names && to !in v.names && MovesTheName(v, View(after), from, to)
  {
    NameIsLive(nodes, rank, parent, name);
    ViewLooksUp(nodes, newParent, newName);
    RenameIsMoved(nodes, parent, name, newParent, newName);
    MovedMovesTheName(View(nodes), Place(parent, name), Place(newParent, newName));
  }

  lemma KeptTwice<N(!new)>(nodes: Table<N>, mid: Table<N>, after: Table<N>)
    requires KeepsContents(nodes, mid) && KeepsContents(mid, after)
    requires forall x | Live(after, x) && x <= |mid| :: Live(mid, x)
    ensures KeepsContents(nodes, after)
  {
  }

  lemma MoveKeepsContents<N(!new)>(nodes: Table<N>, parent: int, name: N, newParent: int, newName: N)
    requires Leads(nodes, parent, name) && IsFree(nodes, newParent, newName)
    ensures Rename(nodes, parent, name, newParent, newName).Some?
    ensures KeepsContents(nodes, Rename(nodes, parent, name, newParent, newName).value)
  {
    var less, ino := Detach(nodes, parent, name), Lookup(nodes, parent, name).value;
    DetachKeepsContents(nodes, parent, name);
    RenameIsDetachedAndLinked(nodes, parent, name, newParent, newName);
    LinkKeepsContents(less, newParent, newName, ino);
    LinkMakesNothingLive(less, newParent, newName, ino);
    KeptTwice(nodes, less, Rename(nodes, parent, name, newParent, newName).value);
  }

  lemma LinkMakesNothingLive<N(!new)>(nodes: Table<N>, parent: int, name: N, ino: int)
    requires Live(nodes, ino) && IsFree(nodes, parent, name)
    ensures Link(nodes, parent, name, ino).Some?
    ensures forall x :: Live(Link(nodes, parent, name, ino).value, x) <==> Live(nodes, x)
  {
  }

  /** Clearing the target and then moving is moving over it. */
  lemma ClearedThenMoved<N>(v: Namespace<int, N>, mid: Namespace<int, N>, after: Namespace<int, N>,
                            from: Place<int, N>, to: Place<int, N>)
    requires from in v.names && from != to && from in mid.names && to !in mid.names
    requires if to in v.names then LosesTheName(v, mid, to) else mid == v
    requires MovesTheName(mid, after, from, to) && mid.names[from] == v.names[from]
    requires v.names[from] in v.dirs ==> v.names[from] in mid.dirs
    ensures MovesTheName(v, after, from, to)
  {
  }

  /** The rename, as it goes. */
  lemma RenameClearsThenMoves<N(!new)>(
      nodes: Table<N>, rank: int -> nat, parent: int, name: N, newParent: int, newName: N, noReplace: bool)
    requires IsTree(View(nodes), rank) && IsATree(nodes)
    requires Answered(nodes, RenameTo(parent, name, newParent, newName, noReplace, false)).errno == Done
    ensures GoesAhead(nodes, parent, name, newParent, newName, noReplace)
    ensures var cleared := Cleared(nodes, newParent, newName);
            && IsTree(View(cleared), rank)
            && Lookup(cleared, parent, name) == Lookup(nodes, parent, name)
            && Leads(cleared, parent, name) && IsFree(cleared, newParent, newName)
            && Rename(cleared, parent, name, newParent, newName)
               == Some(Answered(nodes, RenameTo(parent, name, newParent, newName, noReplace, false)).nodes)
  {
    AheadMoves(nodes, rank, parent, name, newParent, newName, noReplace);
    var ino := Lookup(nodes, parent, name).value;
    ClearedNames(nodes, rank, ino, newParent, newName, noReplace);
    ClearedFrees(nodes, rank, ino, newParent, newName, noReplace);
    ClearedLooksUp(nodes, rank, ino, newParent, newName, noReplace, parent, name);
    NameIsLive(Cleared(nodes, newParent, newName), rank, parent, name);
  }

  lemma RenameKeepsContents<N(!new)>(
      nodes: Table<N>, rank: int -> nat, parent: int, name: N, newParent: int, newName: N, noReplace: bool)
    requires IsTree(View(nodes), rank) && IsATree(nodes)
    requires Answered(nodes, RenameTo(parent, name, newParent, newName, noReplace, false)).errno == Done
    ensures KeepsContents(nodes, Answered(nodes, RenameTo(parent, name, newParent, newName, noReplace, false)).nodes)
  {
    RenameClearsThenMoves(nodes, rank, parent, name, newParent, newName, noReplace);
    var cleared := Cleared(nodes, newParent, newName);
    ClearedKeepsContents(nodes, newParent, newName);
    MoveKeepsContents(cleared, parent, name, newParent, newName);
    MoveMakesNothingLive(cleared, parent, name, newParent, newName);
    KeptTwice(nodes, cleared, Answered(nodes, RenameTo(parent, name, newParent, newName, noReplace, false)).nodes);
  }

  lemma MoveMakesNothingLive<N(!new)>(nodes: Table<N>, parent: int, name: N, newParent: int, newName: N)
    requires Leads(nodes, parent, name) && IsFree(nodes, newParent, newName)
    ensures Rename(nodes, parent, name, newParent, newName).Some?
    ensures forall x | Live(Rename(nodes, parent, name, newParent, newName).value, x) :: Live(nodes, x)
  {
    RenameIsDetachedAndLinked(nodes, parent, name, newParent, newName);
    LinkMakesNothingLive(Detach(nodes, parent, name), newParent, newName, Lookup(nodes, parent, name).value);
  }

  /** The name leads where it did from its new place, and what stood there is gone
      with its last name. */
  lemma RenameMoves<N(!new)>(nodes: Table<N>, parent: int, name: N, newParent: int, newName: N, noReplace: bool)
    requires IsATree(nodes)
    requires Answered(nodes, RenameTo(parent, name, newParent, newName, noReplace, false)).errno == Done
    ensures var v, from, to := View(nodes), Place(parent, name), Place(newParent, newName);
            var after := Answered(nodes, RenameTo(parent, name, newParent, newName, noReplace, false)).nodes;
            from in v.names && MovesTheName(v, View(after), from, to) && KeepsContents(nodes, after)
  {
    var rank: int -> nat :| IsTree(View(nodes), rank);
    RenameKeepsContents(nodes, rank, parent, name, newParent, newName, noReplace);
    RenameMovesTheName(nodes, rank, parent, name, newParent, newName, noReplace);
  }

  lemma RenameMovesTheName<N(!new)>(
      nodes: Table<N>, rank: int -> nat, parent: int, name: N, newParent: int, newName: N, noReplace: bool)
    requires IsTree(View(nodes), rank) && IsATree(nodes)
    requires Answered(nodes, RenameTo(parent, name, newParent, newName, noReplace, false)).errno == Done
    ensures Place(parent, name) in View(nodes).names
    ensures MovesTheName(View(nodes),
                         View(Answered(nodes, RenameTo(parent, name, newParent, newName, noReplace, false)).nodes),
                         Place(parent, name), Place(newParent, newName))
  {
    var from, to := Place(parent, name), Place(newParent, newName);
    RenameIsGranted(nodes, parent, name, newParent, newName, noReplace, false);
    RenameClearsThenMoves(nodes, rank, parent, name, newParent, newName, noReplace);
    var cleared, ino := Cleared(nodes, newParent, newName), Lookup(nodes, parent, name).value;
    ClearedLoses(nodes, rank, ino, newParent, newName, noReplace);
    MoveMoves(cleared, rank, parent, name, newParent, newName);
    ViewLooksUp(nodes, parent, name);
    ViewLooksUp(cleared, parent, name);
    assert ShowsAt(nodes, View(nodes), ino) && ShowsAt(cleared, View(cleared), ino);
    ClearedKeepsContents(nodes, newParent, newName);
    NameIsLive(cleared, rank, parent, name);
    var after := Answered(nodes, RenameTo(parent, name, newParent, newName, noReplace, false)).nodes;
    ClearedThenMoved(View(nodes), View(cleared), View(after), from, to);
  }
}
