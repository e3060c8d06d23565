/** The served tree and the requests that change it, in place. */
module Served {
  import opened Paths
  import opened Namespaces
  import opened Inodes
  import C = Changes

  class Tree<N(==, !new)> {
    var nodes: Table<N>

    constructor ()
      ensures nodes == [EmptyDirectory()]
    {
      nodes := [EmptyDirectory()];
    }

    /** One node more, at the end of the table. */
    method Push(node: Node<N>) returns (ino: int)
      modifies this
      ensures nodes == old(nodes) + [node] && ino == |nodes|
    {
      nodes := nodes + [node];
      ino := |nodes|;
    }

    method SetKind(ino: int, kind: Kind<N>)
      requires 1 <= ino <= |nodes|
      modifies this
      ensures nodes == WithKind(old(nodes), ino, kind)
    {
      nodes := nodes[ino - 1 := nodes[ino - 1].(kind := kind)];
    }

    method CountLinks(ino: int, more: int)
      requires 1 <= ino <= |nodes|
      modifies this
      ensures nodes == WithLinks(old(nodes), ino, more)
    {
      nodes := nodes[ino - 1 := nodes[ino - 1].(nlink := nodes[ino - 1].nlink + more)];
    }

    method Link(parent: int, name: N, ino: int) returns (linked: bool)
      requires Live(nodes, ino)
      modifies this
      ensures linked <==> Inodes.Link(old(nodes), parent, name, ino).Some?
      ensures nodes == if linked then Inodes.Link(old(nodes), parent, name, ino).value else old(nodes)
    {
      if !IsDir(nodes, parent) { return false; }
      var kind := nodes[parent - 1].kind;
      if name in kind.children { return false; }
      SetKind(parent, Directory(kind.parent, kind.children[name := ino]));
      if IsDir(nodes, ino) {
        SetKind(ino, Directory(parent, nodes[ino - 1].kind.children));
        CountLinks(parent, 1);
      } else {
        CountLinks(ino, 1);
      }
      return true;
    }

    /** Takes a name out of its directory and lowers the count that was for it. */
    method Detach(parent: int, name: N) returns (found: Option<int>)
      requires Lookup(nodes, parent, name).Some? ==> Leads(nodes, parent, name)
      modifies this
      ensures found == Lookup(old(nodes), parent, name)
      ensures nodes == if found.Some? then Inodes.Detach(old(nodes), parent, name) else old(nodes)
    {
      found := Lookup(nodes, parent, name);
      if found.None? { return; }
      var directory, kind := IsDir(nodes, found.value), nodes[parent - 1].kind;
      SetKind(parent, Directory(kind.parent, kind.children - {name}));
      CountLinks(if directory then parent else found.value, -1);
    }

    /** Takes a name away, and what it led to when it was the last. */
    method Unlink(parent: int, name: N) returns (gone: Option<(int, bool)>)
      requires Lookup(nodes, parent, name).Some? ==> Leads(nodes, parent, name)
      modifies this
      ensures match Lookup(old(nodes), parent, name)
              case None => gone == None && nodes == old(nodes)
              case Some(ino) =>
                && gone == Some((ino, IsLast(old(nodes), parent, name)))
                && nodes == Inodes.Unlink(old(nodes), parent, name)
    {
      var found := Detach(parent, name);
      if found.None? { return None; }
      var last := IsDir(nodes, found.value) || nodes[found.value - 1].nlink == 0;
      if last { SetKind(found.value, Gone); }
      return Some((found.value, last));
    }

    /** What was at one name is at another. */
    method Rename(parent: int, name: N, newParent: int, newName: N) returns (moved: bool)
      requires Lookup(nodes, parent, name).Some? ==> Leads(nodes, parent, name)
      modifies this
      ensures moved <==> Inodes.Rename(old(nodes), parent, name, newParent, newName).Some?
      ensures nodes == if moved then Inodes.Rename(old(nodes), parent, name, newParent, newName).value else old(nodes)
    {
      if !IsDir(nodes, newParent) || Lookup(nodes, newParent, newName).Some? || Lookup(nodes, parent, name).None? {
        return false;
      }
      RenameIsDetachedAndLinked(nodes, parent, name, newParent, newName);
      var found := Detach(parent, name);
      moved := Link(newParent, newName, found.value);
    }
  }

  class Rootfs<N(==, !new)> {
    const tree: Tree<N>

    constructor (tree: Tree<N>)
      ensures this.tree == tree
    {
      this.tree := tree;
    }

    method Make(parent: int, name: N, making: C.Making) returns (errno: C.Errno)
      requires C.IsATree(tree.nodes)
      modifies tree
      ensures C.Answer(errno, tree.nodes) == C.Answered(old(tree.nodes), C.Make(parent, name, making))
      ensures C.IsATree(tree.nodes)
    {
      C.AnsweringKeepsTheTree(tree.nodes, C.Make(parent, name, making));
      if !Live(tree.nodes, parent) { return C.Enoent; }
      if !IsDir(tree.nodes, parent) { return C.Enotdir; }
      if Lookup(tree.nodes, parent, name).Some? { return C.Eexist; }
      var ino := tree.Push(C.Fresh(making));
      var linked := tree.Link(parent, name, ino);
      if !linked { return C.Eio; }
      return C.Done;
    }

    method Remove(parent: int, name: N, directory: bool) returns (errno: C.Errno)
      requires C.IsATree(tree.nodes)
      modifies tree
      ensures C.Answer(errno, tree.nodes) == C.Answered(old(tree.nodes), C.Remove(parent, name, directory))
      ensures C.IsATree(tree.nodes)
    {
      C.AnsweringKeepsTheTree(tree.nodes, C.Remove(parent, name, directory));
      var found := Lookup(tree.nodes, parent, name);
      if found.None? { return C.Enoent; }
      C.NamesAreLive(tree.nodes, parent, name);
      var isDir := IsDir(tree.nodes, found.value);
      if directory && !isDir { return C.Enotdir; }
      if !directory && isDir { return C.Eisdir; }
      if directory && tree.nodes[found.value - 1].kind.children != map[] { return C.Enotempty; }
      var gone := tree.Unlink(parent, name);
      return C.Done;
    }

    method LinkTo(ino: int, parent: int, name: N) returns (errno: C.Errno)
      requires C.IsATree(tree.nodes)
      modifies tree
      ensures C.Answer(errno, tree.nodes) == C.Answered(old(tree.nodes), C.LinkTo(ino, parent, name))
      ensures C.IsATree(tree.nodes)
    {
      C.AnsweringKeepsTheTree(tree.nodes, C.LinkTo(ino, parent, name));
      if !Live(tree.nodes, ino) { return C.Enoent; }
      if IsDir(tree.nodes, ino) { return C.Eperm; }
      if Lookup(tree.nodes, parent, name).Some? { return C.Eexist; }
      var linked := tree.Link(parent, name, ino);
      return if linked then C.Done else C.Enoent;
    }

    /** Climbs from `under` until it meets `ino`, the root or no directory. */
    method Within(ino: int, under: int) returns (inside: bool)
      requires C.IsATree(tree.nodes)
      ensures inside <==> IsInside(View(tree.nodes), ino, under)
    {
      ghost var v := View(tree.nodes);
      ghost var rank: int -> nat :| IsTree(v, rank);
      InsideIsWithin(v, rank, ino, under);
      var at := under;
      while true
        invariant IsTree(v, rank) && v == View(tree.nodes)
        invariant IsInside(v, ino, under) <==> IsWithin(v, rank, ino, at)
        decreases rank(at)
      {
        assert ShowsAt(tree.nodes, v, at);
        if at == ino { return true; }
        if !IsDir(tree.nodes, at) || tree.nodes[at - 1].kind.parent == at { return false; }
        at := tree.nodes[at - 1].kind.parent;
      }
    }

    method RenameTo(parent: int, name: N, newParent: int, newName: N, noReplace: bool, exchange: bool)
      returns (errno: C.Errno)
      requires C.IsATree(tree.nodes)
      modifies tree
      ensures C.Answer(errno, tree.nodes)
           == C.Answered(old(tree.nodes), C.RenameTo(parent, name, newParent, newName, noReplace, exchange))
      ensures C.IsATree(tree.nodes)
    {
      C.AnsweringKeepsTheTree(tree.nodes, C.RenameTo(parent, name, newParent, newName, noReplace, exchange));
      if exchange { return C.Enosys; }
      var found := Lookup(tree.nodes, parent, name);
      if found.None? { return C.Enoent; }
      var ino := found.value;
      var inside := Within(ino, newParent);
      if inside { return C.Einval; }
      var standing := Lookup(tree.nodes, newParent, newName);
      if standing.Some? {
        C.NamesAreLive(tree.nodes, newParent, newName);
        if noReplace { return C.Eexist; }
        var moving, stood := IsDir(tree.nodes, ino), IsDir(tree.nodes, standing.value);
        if moving && !stood { return C.Enotdir; }
        if !moving && stood { return C.Eisdir; }
        if stood && tree.nodes[standing.value - 1].kind.children != map[] { return C.Enotempty; }
        C.ClearedIsATree(tree.nodes, ino, newParent, newName, noReplace);
        var gone := tree.Unlink(newParent, newName);
      }
      if Lookup(tree.nodes, parent, name).Some? { C.NamesAreLive(tree.nodes, parent, name); }
      var moved := tree.Rename(parent, name, newParent, newName);
      return if moved then C.Done else C.Eio;
    }
  }
}
