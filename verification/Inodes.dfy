/** The inode table of a served image. */
module Inodes {
  import opened Paths
  import opened Namespaces
  import L = Layers

  /** Where a regular file's contents are. */
  datatype Content = InLayer(owner: L.Owner) | InObject | Backed

  datatype Kind<N(==)> =
    | Directory(parent: int, children: map<N, int>)
    | File(content: Content)
    | Symlink(target: Bytes)
    | Special
    | Gone

  /** `nlink` counts a file's names. A directory starts with two, its own name
      and its `.`, and gains one for each subdirectory's `..`. */
  datatype Node<N(==)> = Node(kind: Kind<N>, nlink: int)

  /** Inode numbers are positions in the table, counted from one, and are never
      used again. */
  type Table<N(==)> = seq<Node<N>>

  const ROOT: int := 1

  function EmptyDirectory<N(==)>(): Node<N> {
    Node(Directory(ROOT, map[]), 2)
  }

  /** A node fit to be linked in: nothing names it so far. */
  predicate IsFresh<N(==)>(node: Node<N>) {
    match node.kind
    case Directory(parent, children) => children == map[] && node.nlink == 2
    case Gone => false
    case _ => node.nlink == 0
  }

  predicate Live<N(==)>(nodes: Table<N>, ino: int) {
    1 <= ino <= |nodes| && !nodes[ino - 1].kind.Gone?
  }

  predicate IsDir<N(==)>(nodes: Table<N>, ino: int) {
    1 <= ino <= |nodes| && nodes[ino - 1].kind.Directory?
  }

  function Lookup<N(==)>(nodes: Table<N>, parent: int, name: N): Option<int> {
    if IsDir(nodes, parent) && name in nodes[parent - 1].kind.children
    then Some(nodes[parent - 1].kind.children[name]) else None
  }

  /** Where a name can be put. */
  predicate IsFree<N(==)>(nodes: Table<N>, parent: int, name: N) {
    IsDir(nodes, parent) && Lookup(nodes, parent, name).None?
  }

  // ------------------------------------------------------------ the operations

  function WithKind<N(==)>(nodes: Table<N>, ino: int, kind: Kind<N>): Table<N>
    requires 1 <= ino <= |nodes|
  {
    nodes[ino - 1 := nodes[ino - 1].(kind := kind)]
  }

  function WithLinks<N(==)>(nodes: Table<N>, ino: int, more: int): Table<N>
    requires 1 <= ino <= |nodes|
  {
    nodes[ino - 1 := nodes[ino - 1].(nlink := nodes[ino - 1].nlink + more)]
  }

  function WithName<N(==)>(nodes: Table<N>, parent: int, name: N, ino: int): Table<N>
    requires IsDir(nodes, parent)
  {
    var kind := nodes[parent - 1].kind;
    WithKind(nodes, parent, Directory(kind.parent, kind.children[name := ino]))
  }

  function WithoutName<N(==)>(nodes: Table<N>, parent: int, name: N): Table<N>
    requires IsDir(nodes, parent)
  {
    var kind := nodes[parent - 1].kind;
    WithKind(nodes, parent, Directory(kind.parent, kind.children - {name}))
  }

  /** One name more for `ino`, if `parent` is a directory without that name. A
      subdirectory counts for its parent too, by its `..`. */
  function Link<N(==)>(nodes: Table<N>, parent: int, name: N, ino: int): Option<Table<N>>
    requires Live(nodes, ino)
  {
    if !IsDir(nodes, parent) || Lookup(nodes, parent, name).Some? then None
    else
      var named := WithName(nodes, parent, name, ino);
      if IsDir(named, ino) then
        Some(WithLinks(WithKind(named, ino, Directory(parent, named[ino - 1].kind.children)), parent, 1))
      else Some(WithLinks(named, ino, 1))
  }

  /** The name is there and leads somewhere. */
  predicate Leads<N(==)>(nodes: Table<N>, parent: int, name: N) {
    Lookup(nodes, parent, name).Some? && Live(nodes, Lookup(nodes, parent, name).value)
  }

  /** One name less. What it led to stays, named or not. */
  function Detach<N(==)>(nodes: Table<N>, parent: int, name: N): Table<N>
    requires Leads(nodes, parent, name)
  {
    var ino := Lookup(nodes, parent, name).value;
    WithLinks(WithoutName(nodes, parent, name), if IsDir(nodes, ino) then parent else ino, -1)
  }

  /** Whether taking the name away takes the last of the inode. */
  predicate IsLast<N(==)>(nodes: Table<N>, parent: int, name: N)
    requires Leads(nodes, parent, name)
  {
    var ino := Lookup(nodes, parent, name).value;
    IsDir(nodes, ino) || nodes[ino - 1].nlink == 1
  }

  function Unlink<N(==)>(nodes: Table<N>, parent: int, name: N): Table<N>
    requires Leads(nodes, parent, name)
  {
    var ino, left := Lookup(nodes, parent, name).value, Detach(nodes, parent, name);
    if IsLast(nodes, parent, name) then WithKind(left, ino, Gone) else left
  }

  /** The name moved, or `None` when it cannot be. */
  function Rename<N(==)>(nodes: Table<N>, parent: int, name: N, newParent: int, newName: N): Option<Table<N>>
    requires Lookup(nodes, parent, name).Some? ==> Leads(nodes, parent, name)
  {
    if !IsDir(nodes, newParent) || Lookup(nodes, newParent, newName).Some? || Lookup(nodes, parent, name).None?
    then None
    else Link(Detach(nodes, parent, name), newParent, newName, Lookup(nodes, parent, name).value)
  }

  // ------------------------------------------------------------ the namespace

  ghost predicate ShowsPlace<N(!new)>(nodes: Table<N>, names: map<Place<int, N>, int>, e: Place<int, N>) {
    && (e in names <==> Lookup(nodes, e.dir, e.name).Some?)
    && (e in names ==> names[e] == Lookup(nodes, e.dir, e.name).value)
  }

  ghost predicate ShowsNames<N(!new)>(nodes: Table<N>, names: map<Place<int, N>, int>) {
    forall e :: ShowsPlace(nodes, names, e)
  }

  /** What a namespace must say of an inode to be the view of the table. */
  ghost predicate ShowsAt<N(!new)>(nodes: Table<N>, v: Namespace<int, N>, x: int) {
    && (x in v.dirs <==> IsDir(nodes, x)) && (x in v.others <==> Live(nodes, x) && !IsDir(nodes, x))
    && (x in v.parent <==> IsDir(nodes, x)) && (IsDir(nodes, x) ==> v.parent[x] == nodes[x - 1].kind.parent)
    && (x in v.count <==> Live(nodes, x)) && (Live(nodes, x) ==> v.count[x] == nodes[x - 1].nlink)
  }

  ghost predicate Shows<N(!new)>(nodes: Table<N>, v: Namespace<int, N>) {
    v.root == ROOT && forall x :: ShowsAt(nodes, v, x)
  }

  ghost predicate IsView<N(!new)>(nodes: Table<N>, v: Namespace<int, N>) {
    Shows(nodes, v) && ShowsNames(nodes, v.names)
  }

  ghost function Gathered<N(!new)>(nodes: Table<N>): Namespace<int, N> {
    var dirs := set x | 1 <= x <= |nodes| && IsDir(nodes, x);
    var others := set x | 1 <= x <= |nodes| && Live(nodes, x) && !IsDir(nodes, x);
    var places := set x, n | 1 <= x <= |nodes| && IsDir(nodes, x) && n in nodes[x - 1].kind.children :: Place(x, n);
    Namespace(
      ROOT, dirs, others,
      map x | x in dirs :: nodes[x - 1].kind.parent,
      map e | e in places :: nodes[e.dir - 1].kind.children[e.name],
      map x | x in dirs + others :: nodes[x - 1].nlink)
  }

  lemma GatheredIsAView<N(!new)>(nodes: Table<N>)
    ensures IsView(nodes, Gathered(nodes))
  {
  }

  /** The table as a namespace. */
  ghost function View<N(!new)>(nodes: Table<N>): (v: Namespace<int, N>)
    ensures IsView(nodes, v)
  {
    GatheredIsAView(nodes);
    var v :| IsView(nodes, v);
    v
  }

  lemma SameDirs<N(!new)>(nodes: Table<N>, v: Namespace<int, N>, w: Namespace<int, N>)
    requires Shows(nodes, v) && Shows(nodes, w)
    ensures v.root == w.root && v.dirs == w.dirs && v.others == w.others && v.parent == w.parent && v.count == w.count
  {
    forall x ensures x in w.dirs <==> x in v.dirs
             ensures x in w.others <==> x in v.others
             ensures x in w.parent <==> x in v.parent
             ensures x in w.parent ==> w.parent[x] == v.parent[x]
             ensures x in w.count <==> x in v.count
             ensures x in w.count ==> w.count[x] == v.count[x]
    {
      assert ShowsAt(nodes, v, x) && ShowsAt(nodes, w, x);
    }
  }

  /** Tables that look names up alike have the same names in view. */
  lemma SameNamesShown<N(!new)>(
      nodes: Table<N>, names: map<Place<int, N>, int>, others: Table<N>, same: map<Place<int, N>, int>)
    requires ShowsNames(nodes, names) && ShowsNames(others, same)
    requires forall d, n :: Lookup(nodes, d, n) == Lookup(others, d, n)
    ensures names == same
  {
    forall e ensures e in names <==> e in same
             ensures e in names ==> names[e] == same[e]
    {
      assert ShowsPlace(nodes, names, e) && ShowsPlace(others, same, e);
    }
  }

  /** There is only the one view. */
  lemma OnlyOneShows<N(!new)>(nodes: Table<N>, v: Namespace<int, N>)
    requires Shows(nodes, v) && ShowsNames(nodes, v.names)
    ensures View(nodes) == v
  {
    SameDirs(nodes, View(nodes), v);
    SameNamesShown(nodes, View(nodes).names, nodes, v.names);
  }

  /** The view looks names up as the table does. */
  lemma ViewLooksUp<N(!new)>(nodes: Table<N>, d: int, n: N)
    ensures Place(d, n) in View(nodes).names <==> Lookup(nodes, d, n).Some?
    ensures Lookup(nodes, d, n).Some? ==> View(nodes).names[Place(d, n)] == Lookup(nodes, d, n).value
  {
    assert ShowsPlace(nodes, View(nodes).names, Place(d, n));
  }

  lemma LinkLooksUp<N>(nodes: Table<N>, parent: int, name: N, ino: int, d: int, n: N)
    requires Live(nodes, ino) && Link(nodes, parent, name, ino).Some?
    ensures Lookup(Link(nodes, parent, name, ino).value, d, n)
         == if d == parent && n == name then Some(ino) else Lookup(nodes, d, n)
  {
  }

  lemma LinkShowsNames<N(!new)>(nodes: Table<N>, parent: int, name: N, ino: int, names: map<Place<int, N>, int>)
    requires Live(nodes, ino) && Link(nodes, parent, name, ino).Some? && ShowsNames(nodes, names)
    ensures ShowsNames(Link(nodes, parent, name, ino).value, names[Place(parent, name) := ino])
  {
    var after, more := Link(nodes, parent, name, ino).value, names[Place(parent, name) := ino];
    forall e ensures ShowsPlace(after, more, e) {
      assert ShowsPlace(nodes, names, e);
      LinkLooksUp(nodes, parent, name, ino, e.dir, e.name);
    }
  }

  /** A name for something else than a directory. */
  lemma LinkIsLinked<N(!new)>(nodes: Table<N>, parent: int, name: N, ino: int)
    requires Live(nodes, ino) && !IsDir(nodes, ino) && IsFree(nodes, parent, name)
    ensures Link(nodes, parent, name, ino).Some? && ino in View(nodes).others && ino in View(nodes).count
    ensures View(Link(nodes, parent, name, ino).value) == Linked(View(nodes), Place(parent, name), ino)
  {
    var v := View(nodes);
    LinkShowsNames(nodes, parent, name, ino, v.names);
    assert ShowsAt(nodes, v, ino);
    var linked := Linked(v, Place(parent, name), ino);
    forall x ensures ShowsAt(Link(nodes, parent, name, ino).value, linked, x) {
      assert ShowsAt(nodes, v, x);
    }
    OnlyOneShows(Link(nodes, parent, name, ino).value, linked);
  }

  lemma PushShowsNames<N(!new)>(nodes: Table<N>, node: Node<N>, names: map<Place<int, N>, int>)
    requires IsFresh(node) && ShowsNames(nodes, names)
    ensures ShowsNames(nodes + [node], names)
  {
    forall e ensures ShowsPlace(nodes + [node], names, e) {
      assert ShowsPlace(nodes, names, e);
    }
  }

  /** What making a node leaves in view. */
  ghost function Gained<N>(v: Namespace<int, N>, e: Place<int, N>, ino: int, directory: bool): Namespace<int, N>
    requires e.dir in v.count
  {
    if directory then MadeDir(v, e, ino) else MadeOther(v, e, ino)
  }

  lemma MakeIsMade<N(!new)>(nodes: Table<N>, parent: int, name: N, node: Node<N>)
    requires IsFresh(node) && IsFree(nodes, parent, name)
    ensures parent in View(nodes).count && Link(nodes + [node], parent, name, |nodes| + 1).Some?
    ensures IsNew(View(nodes), |nodes| + 1)
    ensures View(Link(nodes + [node], parent, name, |nodes| + 1).value)
         == Gained(View(nodes), Place(parent, name), |nodes| + 1, node.kind.Directory?)
  {
    var v, ino := View(nodes), |nodes| + 1;
    PushShowsNames(nodes, node, v.names);
    LinkShowsNames(nodes + [node], parent, name, ino, v.names);
    assert ShowsAt(nodes, v, parent) && ShowsAt(nodes, v, ino);
    var after := Link(nodes + [node], parent, name, ino).value;
    var made := Gained(v, Place(parent, name), ino, node.kind.Directory?);
    forall x ensures ShowsAt(after, made, x) {
      assert ShowsAt(nodes, v, x);
    }
    OnlyOneShows(after, made);
  }

  lemma DetachShowsNames<N(!new)>(nodes: Table<N>, parent: int, name: N, names: map<Place<int, N>, int>)
    requires Leads(nodes, parent, name) && ShowsNames(nodes, names)
    ensures ShowsNames(Detach(nodes, parent, name), names - {Place(parent, name)})
  {
    forall e ensures ShowsPlace(Detach(nodes, parent, name), names - {Place(parent, name)}, e) {
      assert ShowsPlace(nodes, names, e);
    }
  }

  /** What taking a name away leaves in view. */
  ghost function Lost<N>(v: Namespace<int, N>, e: Place<int, N>): Namespace<int, N>
    requires e in v.names && e.dir in v.count && v.names[e] in v.count
  {
    if v.names[e] in v.dirs then LostDir(v, e) else if v.count[v.names[e]] == 1 then LostOther(v, e) else LostName(v, e)
  }

  predicate HoldsNothing<N(==)>(nodes: Table<N>, ino: int) {
    IsDir(nodes, ino) ==> nodes[ino - 1].kind.children == map[]
  }

  lemma UnlinkShowsNames<N(!new)>(nodes: Table<N>, parent: int, name: N, names: map<Place<int, N>, int>)
    requires Leads(nodes, parent, name) && ShowsNames(nodes, names)
    requires HoldsNothing(nodes, Lookup(nodes, parent, name).value)
    ensures ShowsNames(Unlink(nodes, parent, name), names - {Place(parent, name)})
  {
    DetachShowsNames(nodes, parent, name, names);
    var less := Detach(nodes, parent, name);
    forall e ensures ShowsPlace(Unlink(nodes, parent, name), names - {Place(parent, name)}, e) {
      assert ShowsPlace(less, names - {Place(parent, name)}, e);
    }
  }

  lemma UnlinkIsLost<N(!new)>(nodes: Table<N>, parent: int, name: N)
    requires Leads(nodes, parent, name) && Lookup(nodes, parent, name).value != parent
    requires HoldsNothing(nodes, Lookup(nodes, parent, name).value)
    ensures Place(parent, name) in View(nodes).names && parent in View(nodes).count
    ensures View(nodes).names[Place(parent, name)] in View(nodes).count
    ensures View(Unlink(nodes, parent, name)) == Lost(View(nodes), Place(parent, name))
  {
    var v, ino := View(nodes), Lookup(nodes, parent, name).value;
    UnlinkShowsNames(nodes, parent, name, v.names);
    assert ShowsAt(nodes, v, parent) && ShowsAt(nodes, v, ino) && ShowsPlace(nodes, v.names, Place(parent, name));
    var after, lost := Unlink(nodes, parent, name), Lost(v, Place(parent, name));
    forall x ensures ShowsAt(after, lost, x) {
      assert ShowsAt(nodes, v, x);
    }
    OnlyOneShows(after, lost);
  }

  /** What moving a name leaves in view. */
  ghost function Moved<N>(v: Namespace<int, N>, from: Place<int, N>, to: Place<int, N>): Namespace<int, N>
    requires from in v.names && from.dir in v.count && to.dir in v.count
  {
    if v.names[from] in v.dirs then MovedDir(v, from, to) else MovedOther(v, from, to)
  }

  lemma RenameIsDetachedAndLinked<N>(nodes: Table<N>, parent: int, name: N, newParent: int, newName: N)
    requires Leads(nodes, parent, name) && IsFree(nodes, newParent, newName)
    ensures Live(Detach(nodes, parent, name), Lookup(nodes, parent, name).value)
    ensures Rename(nodes, parent, name, newParent, newName)
         == Link(Detach(nodes, parent, name), newParent, newName, Lookup(nodes, parent, name).value)
    ensures Rename(nodes, parent, name, newParent, newName).Some?
  {
  }

  lemma RenameIsMoved<N(!new)>(nodes: Table<N>, parent: int, name: N, newParent: int, newName: N)
    requires Leads(nodes, parent, name) && IsFree(nodes, newParent, newName)
    ensures Place(parent, name) in View(nodes).names && parent in View(nodes).count && newParent in View(nodes).count
    ensures Rename(nodes, parent, name, newParent, newName).Some?
    ensures View(Rename(nodes, parent, name, newParent, newName).value)
         == Moved(View(nodes), Place(parent, name), Place(newParent, newName))
  {
    var v, ino, less := View(nodes), Lookup(nodes, parent, name).value, Detach(nodes, parent, name);
    assert ShowsAt(nodes, v, parent) && ShowsAt(nodes, v, newParent) && ShowsAt(nodes, v, ino);
    assert ShowsPlace(nodes, v.names, Place(parent, name));
    RenameIsDetachedAndLinked(nodes, parent, name, newParent, newName);
    DetachShowsNames(nodes, parent, name, v.names);
    LinkShowsNames(less, newParent, newName, ino, v.names - {Place(parent, name)});
    var after := Rename(nodes, parent, name, newParent, newName).value;
    var moved := Moved(v, Place(parent, name), Place(newParent, newName));
    forall x ensures ShowsAt(after, moved, x) {
      assert ShowsAt(nodes, v, x);
    }
    OnlyOneShows(after, moved);
  }
}
