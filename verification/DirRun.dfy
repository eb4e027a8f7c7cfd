/** Any sequence of calls on names, from the tree that `mkfs` makes. */
module DirRun {
  import opened DirTree
  import opened DirCode

  /** The calls, with what path resolution and `ialloc` found for them: a directory or -1, a new
      inode number or -1.  `Open` and `Close` take and drop a reference to an inode. */
  datatype Call =
    | Make(dp: int, name: string, kind: Kind, x: int, fails: set<int>)
    | Link(ip: int, dp: int, name: string, full: bool)
    | Unlink(dp: int, name: string)
    | Open(x: int)
    | Close(x: int)

  predicate DirOrNone(t: Nodes, dp: int) {
    dp == -1 || IsDir(t, dp)
  }

  /** Path resolution and `ialloc` can have found this. */
  predicate Possible(t: Nodes, held: multiset<int>, call: Call) {
    match call
    case Make(dp, _, _, x, _) => DirOrNone(t, dp) && (x == -1 || (x !in t && x > 0))
    case Link(ip, dp, _, _) => ip in t && DirOrNone(t, dp)
    case Unlink(dp, _) => DirOrNone(t, dp)
    case Open(x) => x in t
    case Close(x) => x in held
  }

  /** A new name in a directory that is not linked, a link count that wraps, or a ".." that refers
      to an inode that has been freed. */
  predicate Harmful(t: Nodes, call: Call) {
    match call
    case Make(dp, name, kind, x, fails) =>
      && IsDir(t, dp) && !Linked(t, dp)
      && (Stale(t, dp, Trunc(name)) ||
          (x != -1 && Absent(t[dp].entries, Trunc(name)) && Writable(kind, fails) && Room(t[dp].entries)))
    case Link(ip, dp, name, full) =>
      && ip in t && t[ip].kind != Dir && IsDir(t, dp) && !full
      && Absent(t[dp].entries, Trunc(name)) && Room(t[dp].entries)
      && (!Linked(t, dp) || t[ip].nlink == SHORT_MAX)
    case _ => false
  }

  /** What is held exists, and what has no links is held. */
  ghost predicate Kept(t: Nodes, held: multiset<int>) {
    forall x :: (x in held ==> x in t) && (x in t && t[x].nlink == 0 ==> x in held)
  }

  lemma AbsentIs(t: Nodes, d: int, name: Name)
    requires IsDir(t, d)
    ensures Absent(t[d].entries, name) <==> NoName(t, d, name)
  {
    if NoName(t, d, name) {
      assert forall k :: 0 <= k < |t[d].entries| && t[d].entries[k].inum != 0 ==> Used(t, d, k);
    }
  }

  /** The entry that `dirlookup` finds is the one that is removed. */
  lemma SameFound(t: Nodes, root: int, dp: int, k: int, l: int)
    requires TreeOk(t, root) && Used(t, dp, k) && Used(t, dp, l) && t[dp].entries[k].name == t[dp].entries[l].name
    ensures k == l
  {
    assert NamesApart(t, dp, k, l);
  }

  lemma DroppedKept(t: Nodes, root: int, held: multiset<int>, dp: int, k: nat, x: int)
    requires TreeOk(t, root) && Shorts(t) && Kept(t, held)
    requires EntryFor(t, dp, k, x) && (t[x].kind == Dir ==> Empty(t, x))
    ensures Kept(Dropped(t, dp, k, x, x in held), held)
  {
    RemovedOk(t, root, dp, k, x);
    if t[x].kind == Dir {
      StaysLinked(t, root, dp, k, x);
    }
  }

  class Session {
    const tree: Tree
    var held: multiset<int>      // the references to inodes, other than by names

    ghost predicate Valid()
      reads this, tree
    {
      TreeOk(tree.t, tree.root) && Shorts(tree.t) && Kept(tree.t, held)
    }

    constructor (root: int)
      requires root > 0
      ensures Valid() && fresh(tree) && tree.root == root && tree.t == Fresh(root) && held == multiset{}
    {
      tree := new Tree(root);
      held := multiset{};
    }

    /** One call.  It panics or leaves a tree that is not in order exactly when it is harmful. */
    method Do(call: Call) returns (r: Result)
      requires Valid() && Possible(tree.t, held, call)
      modifies this`held, tree
      ensures Harmful(old(tree.t), call) ==> r == Panic || !TreeOk(tree.t, tree.root)
      ensures !Harmful(old(tree.t), call) ==> r != Panic && Valid()
    {
      match call
      case Make(dp, name, kind, x, fails) => r := Make(dp, name, kind, x, fails);
      case Link(ip, dp, name, full) => r := Link(ip, dp, name, full);
      case Unlink(dp, name) => r := Unlink(dp, name);
      case Open(x) =>
        held := held + multiset{x};
        r := Ok;
      case Close(x) =>
        Close(x);
        r := Ok;
    }

    method Make(dp: int, name: string, kind: Kind, x: int, fails: set<int>) returns (r: Result)
      requires Valid() && Possible(tree.t, held, Call.Make(dp, name, kind, x, fails))
      modifies tree
      ensures Harmful(old(tree.t), Call.Make(dp, name, kind, x, fails)) ==> r == Panic || !TreeOk(tree.t, tree.root)
      ensures !Harmful(old(tree.t), Call.Make(dp, name, kind, x, fails)) ==> r != Panic && Valid()
    {
      assert CountOk(tree.t, dp);
      if dp != -1 {
        AbsentIs(tree.t, dp, Trunc(name));
      }
      ghost var k;
      r, k := tree.Create(dp, name, kind, x, fails);
    }

    method Link(ip: int, dp: int, name: string, full: bool) returns (r: Result)
      requires Valid() && Possible(tree.t, held, Call.Link(ip, dp, name, full))
      modifies tree
      ensures Harmful(old(tree.t), Call.Link(ip, dp, name, full)) ==> !TreeOk(tree.t, tree.root)
      ensures !Harmful(old(tree.t), Call.Link(ip, dp, name, full)) ==> r != Panic && Valid()
    {
      assert CountOk(tree.t, dp);
      if dp != -1 {
        AbsentIs(tree.t, dp, Trunc(name));
      }
      assert CountOk(tree.t, ip);
      ghost var k;
      r, k := tree.SysLink(ip, dp, name, full);
    }

    /** An inode that is held stays when its last name goes. */
    method Unlink(dp: int, name: string) returns (r: Result)
      requires Valid() && DirOrNone(tree.t, dp)
      modifies tree
      ensures Valid() && r != Panic
    {
      var found, open := -1, false;
      if dp != -1 {
        found := tree.DirLookup(dp, name);
        open := found != -1 && tree.t[dp].entries[found].inum in held;
      }
      ghost var t, k, ip := tree.t, 0, 0;
      r, k, ip := tree.SysUnlink(dp, name, open);
      if r == Ok {
        SameFound(t, tree.root, dp, found, k);
        DroppedKept(t, tree.root, held, dp, k, ip);
      }
    }

    /** The last reference to an inode without links frees it. */
    method Close(x: int)
      requires Valid() && x in held
      modifies this`held, tree
      ensures Valid() && held == old(held) - multiset{x}
    {
      held := held - multiset{x};
      tree.IPut(x, x in held);
    }

    /** From any state in order, and so from the tree that `mkfs` makes: the tree is in order and
        nothing is leaked, up to the first call that is harmful. */
    method Run(calls: seq<Call>) returns (n: nat)
      requires Valid()
      modifies this`held, tree
      ensures Valid() && n <= |calls|
      ensures n < |calls| ==> !Possible(tree.t, held, calls[n]) || Harmful(tree.t, calls[n])
    {
      n := 0;
      while n < |calls| && Possible(tree.t, held, calls[n]) && !Harmful(tree.t, calls[n])
        invariant Valid() && n <= |calls|
        decreases |calls| - n
      {
        var _ := Do(calls[n]);
        n := n + 1;
      }
    }

    /** When every reference has been dropped, every inode has a name. */
    method CloseAll()
      requires Valid()
      modifies this`held, tree
      ensures Valid() && held == multiset{} && forall x :: x in tree.t ==> tree.t[x].nlink > 0
    {
      while exists x :: x in held
        invariant Valid()
        decreases |held|
      {
        var x :| x in held;
        Close(x);
      }
      assert held == multiset{};
      forall x | x in tree.t ensures tree.t[x].nlink > 0 {
        assert CountOk(tree.t, x);
      }
    }
  }
}
