/** What a served image answers when a container changes its namespace. */
module Changes {
  import opened Paths
  import opened Namespaces
  import opened Inodes

  datatype Errno = Done | Enoent | Enotdir | Eexist | Eio | Eisdir | Enotempty | Eperm | Einval | Enosys

  datatype Making = NewDirectory | NewFile | NewSymlink(target: Bytes) | NewSpecial

  datatype Request<N> =
    | Make(parent: int, name: N, making: Making)
    | Remove(parent: int, name: N, directory: bool)
    | LinkTo(ino: int, parent: int, name: N)
    | RenameTo(parent: int, name: N, newParent: int, newName: N, noReplace: bool, exchange: bool)

  datatype Answer<N(==)> = Answer(errno: Errno, nodes: Table<N>)

  /** A new directory is its own parent until it is linked in. */
  function Fresh<N(==)>(making: Making): (node: Node<N>)
    ensures IsFresh(node) && (node.kind.Directory? <==> making.NewDirectory?)
  {
    match making
    case NewDirectory => EmptyDirectory()
    case NewFile => Node(File(Backed), 0)
    case NewSymlink(target) => Node(Symlink(target), 0)
    case NewSpecial => Node(Special, 0)
  }

  ghost predicate IsATree<N(!new)>(nodes: Table<N>) {
    exists rank: int -> nat :: IsTree(View(nodes), rank)
  }

  lemma NameIsLive<N(!new)>(nodes: Table<N>, rank: int -> nat, parent: int, name: N)
    requires IsTree(View(nodes), rank) && Lookup(nodes, parent, name).Some?
    ensures Leads(nodes, parent, name) && IsDir(nodes, parent) && Lookup(nodes, parent, name).value != parent
    ensures NameLeads(View(nodes), Place(parent, name))
    ensures View(nodes).names[Place(parent, name)] == Lookup(nodes, parent, name).value
  {
    ViewLooksUp(nodes, parent, name);
    assert NameLeads(View(nodes), Place(parent, name));
    assert ShowsAt(nodes, View(nodes), Lookup(nodes, parent, name).value);
  }

  lemma NamesAreLive<N(!new)>(nodes: Table<N>, parent: int, name: N)
    requires IsATree(nodes) && Lookup(nodes, parent, name).Some?
    ensures Leads(nodes, parent, name)
  {
    var rank: int -> nat :| IsTree(View(nodes), rank);
    NameIsLive(nodes, rank, parent, name);
  }

  // ------------------------------------------------------------ the answers

  function Made<N(==)>(nodes: Table<N>, parent: int, name: N, making: Making): Answer<N> {
    if !Live(nodes, parent) then Answer(Enoent, nodes)
    else if !IsDir(nodes, parent) then Answer(Enotdir, nodes)
    else if Lookup(nodes, parent, name).Some? then Answer(Eexist, nodes)
    else
      var pushed := nodes + [Fresh(making)];
      match Link(pushed, parent, name, |pushed|)
      case Some(after) => Answer(Done, after)
      case None => Answer(Eio, pushed)
  }

  ghost function Removed<N(!new)>(nodes: Table<N>, parent: int, name: N, directory: bool): Answer<N>
    requires IsATree(nodes)
  {
    match Lookup(nodes, parent, name)
    case None => Answer(Enoent, nodes)
    case Some(ino) =>
      NamesAreLive(nodes, parent, name);
      if directory && !IsDir(nodes, ino) then Answer(Enotdir, nodes)
      else if !directory && IsDir(nodes, ino) then Answer(Eisdir, nodes)
      else if directory && !HoldsNothing(nodes, ino) then Answer(Enotempty, nodes)
      else Answer(Done, Unlink(nodes, parent, name))
  }

  function LinkedTo<N(==)>(nodes: Table<N>, ino: int, parent: int, name: N): Answer<N> {
    if !Live(nodes, ino) then Answer(Enoent, nodes)
    else if IsDir(nodes, ino) then Answer(Eperm, nodes)
    else if Lookup(nodes, parent, name).Some? then Answer(Eexist, nodes)
    else
      match Link(nodes, parent, name, ino)
      case Some(after) => Answer(Done, after)
      case None => Answer(Enoent, nodes)
  }

  /** Why what stands at a rename's target cannot give way to what moves there. */
  function StandsInTheWay<N(==)>(nodes: Table<N>, ino: int, standing: int, noReplace: bool): Errno {
    if noReplace then Eexist
    else if IsDir(nodes, ino) && !IsDir(nodes, standing) then Enotdir
    else if !IsDir(nodes, ino) && IsDir(nodes, standing) then Eisdir
    else if IsDir(nodes, standing) && !HoldsNothing(nodes, standing) then Enotempty
    else Done
  }

  /** The table once whatever stands at a rename's target has gone. */
  ghost function Cleared<N(!new)>(nodes: Table<N>, parent: int, name: N): Table<N>
    requires IsATree(nodes)
  {
    if Lookup(nodes, parent, name).None? then nodes
    else
      NamesAreLive(nodes, parent, name);
      Unlink(nodes, parent, name)
  }

  ghost predicate Clears<N(!new)>(nodes: Table<N>, ino: int, newParent: int, newName: N, noReplace: bool) {
    match Lookup(nodes, newParent, newName)
    case None => true
    case Some(standing) => StandsInTheWay(nodes, ino, standing, noReplace) == Done
  }

  lemma NothingIsEmpty<N(!new)>(nodes: Table<N>, ino: int)
    requires HoldsNothing(nodes, ino)
    ensures IsEmpty(View(nodes), ino)
  {
    forall e | e in View(nodes).names ensures e.dir != ino {
      assert ShowsPlace(nodes, View(nodes).names, e);
    }
  }

  lemma LostIsTree<N(!new)>(v: Namespace<int, N>, rank: int -> nat, e: Place<int, N>)
    requires IsTree(v, rank) && e in v.names && (v.names[e] in v.dirs ==> IsEmpty(v, v.names[e]))
    ensures e.dir in v.count && v.names[e] in v.count && IsTree(Lost(v, e), rank)
  {
    assert NameLeads(v, e);
    if v.names[e] in v.dirs {
      LostDirIsTree(v, rank, e);
    } else {
      assert OtherCounts(v, v.names[e]);
      if v.count[v.names[e]] == 1 { LostOtherIsTree(v, rank, e); } else { LostNameIsTree(v, rank, e); }
    }
  }

  lemma UnlinkKeepsTheTree<N(!new)>(nodes: Table<N>, rank: int -> nat, parent: int, name: N)
    requires IsTree(View(nodes), rank) && Lookup(nodes, parent, name).Some?
    requires HoldsNothing(nodes, Lookup(nodes, parent, name).value)
    ensures Leads(nodes, parent, name) && Place(parent, name) in View(nodes).names
    ensures parent in View(nodes).count && View(nodes).names[Place(parent, name)] in View(nodes).count
    ensures View(Unlink(nodes, parent, name)) == Lost(View(nodes), Place(parent, name))
    ensures IsTree(View(Unlink(nodes, parent, name)), rank)
  {
    NameIsLive(nodes, rank, parent, name);
    UnlinkIsLost(nodes, parent, name);
    NothingIsEmpty(nodes, Lookup(nodes, parent, name).value);
    LostIsTree(View(nodes), rank, Place(parent, name));
  }

  lemma ClearedIsATree<N(!new)>(nodes: Table<N>, ino: int, newParent: int, newName: N, noReplace: bool)
    requires IsATree(nodes) && Clears(nodes, ino, newParent, newName, noReplace)
    ensures IsATree(Cleared(nodes, newParent, newName))
  {
    if Lookup(nodes, newParent, newName).Some? {
      var rank: int -> nat :| IsTree(View(nodes), rank);
      UnlinkKeepsTheTree(nodes, rank, newParent, newName);
    }
  }

  ghost function Renamed<N(!new)>(
      nodes: Table<N>, parent: int, name: N, newParent: int, newName: N, noReplace: bool, exchange: bool): Answer<N>
    requires IsATree(nodes)
  {
    if exchange then Answer(Enosys, nodes)
    else
      match Lookup(nodes, parent, name)
      case None => Answer(Enoent, nodes)
      case Some(ino) =>
        if IsInside(View(nodes), ino, newParent) then Answer(Einval, nodes)
        else if !Clears(nodes, ino, newParent, newName, noReplace) then
          Answer(StandsInTheWay(nodes, ino, Lookup(nodes, newParent, newName).value, noReplace), nodes)
        else
          ClearedIsATree(nodes, ino, newParent, newName, noReplace);
          var cleared := Cleared(nodes, newParent, newName);
          assert Lookup(cleared, parent, name).Some? ==> Leads(cleared, parent, name) by {
            if Lookup(cleared, parent, name).Some? { NamesAreLive(cleared, parent, name); }
          }
          match Rename(cleared, parent, name, newParent, newName)
          case Some(after) => Answer(Done, after)
          case None => Answer(Eio, cleared)
  }

  ghost function Answered<N(!new)>(nodes: Table<N>, request: Request<N>): Answer<N>
    requires IsATree(nodes)
  {
    match request
    case Make(parent, name, making) => Made(nodes, parent, name, making)
    case Remove(parent, name, directory) => Removed(nodes, parent, name, directory)
    case LinkTo(ino, parent, name) => LinkedTo(nodes, ino, parent, name)
    case RenameTo(parent, name, newParent, newName, noReplace, exchange) =>
      Renamed(nodes, parent, name, newParent, newName, noReplace, exchange)
  }

  // ------------------------------------------------------------ each answer keeps the tree

  lemma FreeToHold<N(!new)>(nodes: Table<N>, rank: int -> nat, parent: int, name: N)
    requires IsTree(View(nodes), rank) && IsFree(nodes, parent, name)
    ensures CanHold(View(nodes), rank, Place(parent, name))
  {
    ViewLooksUp(nodes, parent, name);
    assert ShowsAt(nodes, View(nodes), parent);
  }

  lemma GainedIsTree<N>(v: Namespace<int, N>, rank: int -> nat, e: Place<int, N>, ino: int, directory: bool)
    returns (after: int -> nat)
    requires CanHold(v, rank, e) && IsNew(v, ino) && e.dir in v.count
    ensures IsTree(Gained(v, e, ino, directory), after)
  {
    if directory {
      MadeDirIsTree(v, rank, e, ino);
      after := RankBelow(rank, ino, e.dir);
    } else {
      MadeOtherIsTree(v, rank, e, ino);
      after := rank;
    }
  }

  lemma MadeView<N(!new)>(nodes: Table<N>, parent: int, name: N, making: Making)
    requires IsFree(nodes, parent, name)
    ensures Made(nodes, parent, name, making).errno == Done
    ensures parent in View(nodes).count && IsNew(View(nodes), |nodes| + 1)
    ensures View(Made(nodes, parent, name, making).nodes)
         == Gained(View(nodes), Place(parent, name), |nodes| + 1, making.NewDirectory?)
  {
    MakeIsMade(nodes, parent, name, Fresh(making));
    assert Live(nodes, parent) && !Live(nodes, |nodes| + 1);
  }

  lemma GainedIsATree<N(!new)>(
      nodes: Table<N>, after: Table<N>, rank: int -> nat, e: Place<int, N>, ino: int, directory: bool)
    requires CanHold(View(nodes), rank, e) && IsNew(View(nodes), ino) && e.dir in View(nodes).count
    requires View(after) == Gained(View(nodes), e, ino, directory)
    ensures IsATree(after)
  {
    var ranked := GainedIsTree(View(nodes), rank, e, ino, directory);
  }

  /** A node just pushed and given its name, whatever it is. */
  lemma PushedKeepsTheTree<N(!new)>(nodes: Table<N>, rank: int -> nat, parent: int, name: N, node: Node<N>)
    requires IsTree(View(nodes), rank) && IsFree(nodes, parent, name) && IsFresh(node)
    ensures Link(nodes + [node], parent, name, |nodes| + 1).Some?
    ensures IsATree(Link(nodes + [node], parent, name, |nodes| + 1).value)
  {
    MakeIsMade(nodes, parent, name, node);
    FreeToHold(nodes, rank, parent, name);
    var after := Link(nodes + [node], parent, name, |nodes| + 1).value;
    GainedIsATree(nodes, after, rank, Place(parent, name), |nodes| + 1, node.kind.Directory?);
  }

  lemma MadeKeepsTheTree<N(!new)>(nodes: Table<N>, parent: int, name: N, making: Making)
    requires IsATree(nodes)
    ensures IsATree(Made(nodes, parent, name, making).nodes)
  {
    if IsFree(nodes, parent, name) {
      var rank: int -> nat :| IsTree(View(nodes), rank);
      PushedKeepsTheTree(nodes, rank, parent, name, Fresh(making));
    }
  }

  lemma RemovedKeepsTheTree<N(!new)>(nodes: Table<N>, parent: int, name: N, directory: bool)
    requires IsATree(nodes)
    ensures IsATree(Removed(nodes, parent, name, directory).nodes)
  {
    if Removed(nodes, parent, name, directory).errno == Done {
      var rank: int -> nat :| IsTree(View(nodes), rank);
      UnlinkKeepsTheTree(nodes, rank, parent, name);
    }
  }

  lemma LinkedToKeepsTheTree<N(!new)>(nodes: Table<N>, ino: int, parent: int, name: N)
    requires IsATree(nodes)
    ensures IsATree(LinkedTo(nodes, ino, parent, name).nodes)
  {
    if LinkedTo(nodes, ino, parent, name).errno == Done {
      var rank: int -> nat :| IsTree(View(nodes), rank);
      FreeToHold(nodes, rank, parent, name);
      LinkIsLinked(nodes, parent, name, ino);
      LinkedIsTree(View(nodes), rank, Place(parent, name), ino);
    }
  }

  lemma MoveKeepsTheTree<N(!new)>(
      nodes: Table<N>, rank: int -> nat, parent: int, name: N, newParent: int, newName: N)
    requires IsTree(View(nodes), rank) && Lookup(nodes, parent, name).Some? && IsFree(nodes, newParent, newName)
    requires !IsWithin(View(nodes), rank, Lookup(nodes, parent, name).value, newParent)
    ensures Leads(nodes, parent, name) && Rename(nodes, parent, name, newParent, newName).Some?
    ensures IsATree(Rename(nodes, parent, name, newParent, newName).value)
    ensures View(Rename(nodes, parent, name, newParent, newName).value).names
         == (View(nodes).names - {Place(parent, name)})[Place(newParent, newName) := Lookup(nodes, parent, name).value]
  {
    var v, from, to := View(nodes), Place(parent, name), Place(newParent, newName);
    NamesAreLive(nodes, parent, name);
    FreeToHold(nodes, rank, newParent, newName);
    RenameIsMoved(nodes, parent, name, newParent, newName);
    NameIsLive(nodes, rank, parent, name);
    if v.names[from] in v.dirs { MovedDirIsTree(v, rank, from, to); } else { MovedOtherIsTree(v, rank, from, to); }
  }

  /** Whatever gives way takes its one name and nothing else. */
  lemma ClearedNames<N(!new)>(nodes: Table<N>, rank: int -> nat, ino: int, newParent: int, newName: N, noReplace: bool)
    requires IsTree(View(nodes), rank) && IsATree(nodes) && Clears(nodes, ino, newParent, newName, noReplace)
    ensures IsTree(View(Cleared(nodes, newParent, newName)), rank)
    ensures View(Cleared(nodes, newParent, newName)).names == View(nodes).names - {Place(newParent, newName)}
  {
    ViewLooksUp(nodes, newParent, newName);
    if Lookup(nodes, newParent, newName).Some? { UnlinkKeepsTheTree(nodes, rank, newParent, newName); }
  }

  lemma LostStaysOutside<N(!new)>(v: Namespace<int, N>, rank: int -> nat, e: Place<int, N>, ino: int, x: int)
    requires IsTree(v, rank) && e in v.names && e.dir in v.count && v.names[e] in v.count && IsTree(Lost(v, e), rank)
    ensures IsWithin(Lost(v, e), rank, ino, x) ==> IsWithin(v, rank, ino, x)
  {
    StillOutside(v, Lost(v, e), rank, ino, x);
  }

  lemma ClearedStaysOutside<N(!new)>(nodes: Table<N>, rank: int -> nat, ino: int, newParent: int, newName: N,
                                     noReplace: bool)
    requires IsTree(View(nodes), rank) && IsATree(nodes) && Clears(nodes, ino, newParent, newName, noReplace)
    requires IsTree(View(Cleared(nodes, newParent, newName)), rank) && !IsInside(View(nodes), ino, newParent)
    ensures !IsWithin(View(Cleared(nodes, newParent, newName)), rank, ino, newParent)
  {
    InsideIsWithin(View(nodes), rank, ino, newParent);
    if Lookup(nodes, newParent, newName).Some? {
      UnlinkKeepsTheTree(nodes, rank, newParent, newName);
      LostStaysOutside(View(nodes), rank, Place(newParent, newName), ino, newParent);
    }
  }

  /** What gives way was not the directory it stood in. */
  lemma ClearedFrees<N(!new)>(nodes: Table<N>, rank: int -> nat, ino: int, newParent: int, newName: N, noReplace: bool)
    requires IsTree(View(nodes), rank) && IsATree(nodes) && Clears(nodes, ino, newParent, newName, noReplace)
    ensures IsFree(Cleared(nodes, newParent, newName), newParent, newName) <==> IsDir(nodes, newParent)
  {
    if Lookup(nodes, newParent, newName).Some? { NameIsLive(nodes, rank, newParent, newName); }
  }

  /** A rename that gets as far as moving the name. */
  ghost predicate GoesAhead<N(!new)>(nodes: Table<N>, parent: int, name: N, newParent: int, newName: N,
                                     noReplace: bool) {
    && Lookup(nodes, parent, name).Some?
    && !IsInside(View(nodes), Lookup(nodes, parent, name).value, newParent)
    && Clears(nodes, Lookup(nodes, parent, name).value, newParent, newName, noReplace)
  }

  lemma ClearedLooksUp<N(!new)>(
      nodes: Table<N>, rank: int -> nat, ino: int, newParent: int, newName: N, noReplace: bool, d: int, n: N)
    requires IsTree(View(nodes), rank) && IsATree(nodes) && Clears(nodes, ino, newParent, newName, noReplace)
    ensures Lookup(Cleared(nodes, newParent, newName), d, n)
         == if d == newParent && n == newName then None else Lookup(nodes, d, n)
  {
    ClearedNames(nodes, rank, ino, newParent, newName, noReplace);
    ViewLooksUp(nodes, d, n);
    ViewLooksUp(Cleared(nodes, newParent, newName), d, n);
  }

  /** It moves the name unless the name is its own target, or the target has no
      directory to go in. */
  lemma AheadMoves<N(!new)>(
      nodes: Table<N>, rank: int -> nat, parent: int, name: N, newParent: int, newName: N, noReplace: bool)
    requires IsTree(View(nodes), rank) && IsATree(nodes)
    requires GoesAhead(nodes, parent, name, newParent, newName, noReplace)
    ensures var answer := Renamed(nodes, parent, name, newParent, newName, noReplace, false);
            && (answer.errno == Done <==> IsDir(nodes, newParent) && Place(parent, name) != Place(newParent, newName))
            && (answer.errno == Done || (answer.errno == Eio && answer.nodes == Cleared(nodes, newParent, newName)))
  {
    var ino := Lookup(nodes, parent, name).value;
    ClearedFrees(nodes, rank, ino, newParent, newName, noReplace);
    ClearedLooksUp(nodes, rank, ino, newParent, newName, noReplace, parent, name);
    ClearedNames(nodes, rank, ino, newParent, newName, noReplace);
    var cleared := Cleared(nodes, newParent, newName);
    if IsFree(cleared, newParent, newName) && Lookup(cleared, parent, name).Some? {
      NameIsLive(cleared, rank, parent, name);
      RenameIsDetachedAndLinked(cleared, parent, name, newParent, newName);
    }
  }

  lemma DoneMoves<N(!new)>(
      nodes: Table<N>, rank: int -> nat, parent: int, name: N, newParent: int, newName: N, noReplace: bool)
    requires IsTree(View(nodes), rank) && IsATree(nodes) && IsDir(nodes, newParent)
    requires GoesAhead(nodes, parent, name, newParent, newName, noReplace)
             && Place(parent, name) != Place(newParent, newName)
    ensures var after := Renamed(nodes, parent, name, newParent, newName, noReplace, false).nodes;
            && IsATree(after)
            && View(after).names == (View(nodes).names - {Place(newParent, newName)} - {Place(parent, name)})
                                      [Place(newParent, newName) := Lookup(nodes, parent, name).value]
  {
    var ino := Lookup(nodes, parent, name).value;
    ClearedNames(nodes, rank, ino, newParent, newName, noReplace);
    ClearedFrees(nodes, rank, ino, newParent, newName, noReplace);
    ClearedLooksUp(nodes, rank, ino, newParent, newName, noReplace, parent, name);
    ClearedStaysOutside(nodes, rank, ino, newParent, newName, noReplace);
    MoveKeepsTheTree(Cleared(nodes, newParent, newName), rank, parent, name, newParent, newName);
  }

  lemma RenamedKeepsTheTree<N(!new)>(
      nodes: Table<N>, parent: int, name: N, newParent: int, newName: N, noReplace: bool, exchange: bool)
    requires IsATree(nodes)
    ensures IsATree(Renamed(nodes, parent, name, newParent, newName, noReplace, exchange).nodes)
  {
    if !exchange && GoesAhead(nodes, parent, name, newParent, newName, noReplace) {
      var rank: int -> nat :| IsTree(View(nodes), rank);
      AheadMoves(nodes, rank, parent, name, newParent, newName, noReplace);
      if IsDir(nodes, newParent) && Place(parent, name) != Place(newParent, newName) {
        DoneMoves(nodes, rank, parent, name, newParent, newName, noReplace);
      } else {
        ClearedIsATree(nodes, Lookup(nodes, parent, name).value, newParent, newName, noReplace);
      }
    }
  }

  // ------------------------------------------------------------ over every run

  /** Whatever is asked, the table stays a tree. */
  lemma AnsweringKeepsTheTree<N(!new)>(nodes: Table<N>, request: Request<N>)
    requires IsATree(nodes)
    ensures IsATree(Answered(nodes, request).nodes)
  {
    match request {
      case Make(parent, name, making) => MadeKeepsTheTree(nodes, parent, name, making);
      case Remove(parent, name, directory) => RemovedKeepsTheTree(nodes, parent, name, directory);
      case LinkTo(ino, parent, name) => LinkedToKeepsTheTree(nodes, ino, parent, name);
      case RenameTo(parent, name, newParent, newName, noReplace, exchange) =>
        RenamedKeepsTheTree(nodes, parent, name, newParent, newName, noReplace, exchange);
    }
  }

  /** The table after a run of requests. */
  ghost function After<N(!new)>(nodes: Table<N>, requests: seq<Request<N>>): (after: Table<N>)
    requires IsATree(nodes)
    ensures IsATree(after)
    decreases |requests|
  {
    if requests == [] then nodes
    else
      AnsweringKeepsTheTree(nodes, requests[0]);
      After(Answered(nodes, requests[0]).nodes, requests[1..])
  }

  ghost predicate IsReached<N(!new)>(v: Namespace<int, N>, ino: int) {
    exists path :: Find(v, v.root, path) == Some(ino)
  }

  /** In every table a run can lead to, each live inode is found from the root,
      each directory by one path only, and the counts are the names. */
  lemma EveryRunKeepsTheTree<N(!new)>(nodes: Table<N>, requests: seq<Request<N>>, ino: int)
    requires IsATree(nodes) && Live(After(nodes, requests), ino)
    ensures var after := After(nodes, requests);
            && IsReached(View(after), ino)
            && (IsDir(after, ino) ==>
                  (forall p, q | Find(View(after), ROOT, p) == Find(View(after), ROOT, q) == Some(ino) :: p == q)
                  && after[ino - 1].nlink == 2 + |Subdirectories(View(after), ino)|)
            && (!IsDir(after, ino) ==> after[ino - 1].nlink == |NamesOf(View(after), ino)| >= 1)
  {
    var after := After(nodes, requests);
    var v := View(after);
    var rank: int -> nat :| IsTree(v, rank);
    assert ShowsAt(after, v, ino);
    var path := EverythingIsReached(v, rank, ino);
    assert IsReached(v, ino);
    if IsDir(after, ino) {
      assert DirCounts(v, ino);
      forall p, q | Find(v, ROOT, p) == Find(v, ROOT, q) == Some(ino) ensures p == q {
        OnePathToADirectory(v, rank, p, q);
      }
    } else {
      assert OtherCounts(v, ino);
    }
  }

  // ------------------------------------------------------------ what a refusal changes

  /** A rename of a name onto itself, of anything but a directory holding
      something. */
  ghost predicate MovesOntoItself<N(!new)>(nodes: Table<N>, request: Request<N>) {
    && request.RenameTo? && !request.exchange && !request.noReplace
    && Place(request.parent, request.name) == Place(request.newParent, request.newName)
    && Lookup(nodes, request.parent, request.name).Some?
    && HoldsNothing(nodes, Lookup(nodes, request.parent, request.name).value)
  }

  lemma {:induction false} WithinIsBelow<N>(v: Namespace<int, N>, rank: int -> nat, top: int, x: int)
    requires IsTree(v, rank) && IsWithin(v, rank, top, x)
    ensures x == top || (top in v.dirs && rank(top) < rank(x))
    decreases rank(x)
  {
    if x != top { WithinIsBelow(v, rank, top, v.parent[x]); }
  }

  lemma NothingHoldsItsOwnDirectory<N(!new)>(nodes: Table<N>, rank: int -> nat, parent: int, name: N)
    requires IsTree(View(nodes), rank) && Lookup(nodes, parent, name).Some?
    ensures !IsInside(View(nodes), Lookup(nodes, parent, name).value, parent)
  {
    var ino := Lookup(nodes, parent, name).value;
    NameIsLive(nodes, rank, parent, name);
    InsideIsWithin(View(nodes), rank, ino, parent);
    if IsWithin(View(nodes), rank, ino, parent) { WithinIsBelow(View(nodes), rank, ino, parent); }
  }

  /** A rename that changes what it refuses: the name is gone when the move fails. */
  lemma RefusedRename<N(!new)>(
      nodes: Table<N>, rank: int -> nat, parent: int, name: N, newParent: int, newName: N, noReplace: bool)
    requires IsTree(View(nodes), rank) && IsATree(nodes)
    ensures var answer := Renamed(nodes, parent, name, newParent, newName, noReplace, false);
            if MovesOntoItself(nodes, RenameTo(parent, name, newParent, newName, noReplace, false))
            then answer.errno == Eio && Lookup(answer.nodes, parent, name).None?
            else answer.errno == Done || answer.nodes == nodes
  {
    if GoesAhead(nodes, parent, name, newParent, newName, noReplace) {
      AheadMoves(nodes, rank, parent, name, newParent, newName, noReplace);
      if Lookup(nodes, newParent, newName).Some? {
        NameIsLive(nodes, rank, newParent, newName);
        ClearedLooksUp(nodes, rank, Lookup(nodes, parent, name).value, newParent, newName, noReplace, parent, name);
      }
    } else if MovesOntoItself(nodes, RenameTo(parent, name, newParent, newName, noReplace, false)) {
      NothingHoldsItsOwnDirectory(nodes, rank, parent, name);
    }
  }

  /** A request refused leaves the table as it was, but for a rename of a name
      onto itself, which loses the name. */
  lemma RefusalChangesNothing<N(!new)>(nodes: Table<N>, request: Request<N>)
    requires IsATree(nodes)
    ensures Answered(nodes, request).errno != Done && Answered(nodes, request).nodes != nodes
        <==> MovesOntoItself(nodes, request)
  {
    var rank: int -> nat :| IsTree(View(nodes), rank);
    match request {
      case Make(parent, name, making) =>
        if IsFree(nodes, parent, name) { MadeView(nodes, parent, name, making); }
      case Remove(parent, name, directory) => {}
      case LinkTo(ino, parent, name) => {}
      case RenameTo(parent, name, newParent, newName, noReplace, exchange) =>
        if !exchange { RefusedRename(nodes, rank, parent, name, newParent, newName, noReplace); }
    }
  }

  lemma AnEmptyRootIsATree<N(!new)>()
    ensures IsATree<N>([EmptyDirectory()])
  {
    var nodes: Table<N> := [EmptyDirectory()];
    var v := View(nodes);
    forall e ensures e !in v.names {
      assert ShowsPlace(nodes, v.names, e);
    }
    forall x ensures x in v.dirs <==> x == ROOT
             ensures x !in v.others
             ensures x in v.parent <==> x == ROOT
             ensures x in v.count <==> x == ROOT
    {
      assert ShowsAt(nodes, v, x);
    }
    assert ShowsAt(nodes, v, ROOT) && DirCounts(v, ROOT);
    assert IsTree(v, (x: int) => 0);
  }

  /** Any file with one name, renamed onto itself: the rename fails and the file
      is gone. */
  lemma RenameLosesTheFile<N(!new)>(nodes: Table<N>, parent: int, name: N)
    requires IsATree(nodes) && Leads(nodes, parent, name)
    requires !IsDir(nodes, Lookup(nodes, parent, name).value) && nodes[Lookup(nodes, parent, name).value - 1].nlink == 1
    ensures var answer := Answered(nodes, RenameTo(parent, name, parent, name, false, false));
            && answer.errno == Eio && Lookup(answer.nodes, parent, name).None?
            && !Live(answer.nodes, Lookup(nodes, parent, name).value)
  {
    var rank: int -> nat :| IsTree(View(nodes), rank);
    NameIsLive(nodes, rank, parent, name);
    RefusedRename(nodes, rank, parent, name, parent, name, false);
    NothingHoldsItsOwnDirectory(nodes, rank, parent, name);
    AheadMoves(nodes, rank, parent, name, parent, name, false);
  }

  /** There is such a file in every tree where one was just made. */
  lemma AFileJustMadeHasOneName<N(!new)>(nodes: Table<N>, parent: int, name: N)
    requires IsATree(nodes) && IsFree(nodes, parent, name)
    ensures var made := Answered(nodes, Make(parent, name, NewFile)).nodes;
            && Lookup(made, parent, name) == Some(|nodes| + 1) && !IsDir(made, |nodes| + 1)
            && made[|nodes|].nlink == 1
  {
  }
}
