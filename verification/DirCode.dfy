/** `dirlookup`, `dirlink`, `sys_link`, `sys_unlink` and `create`. */
module DirCode {
  import opened DirTree

  /** The outcome of a system call on names. */
  datatype Result = Ok | Failed | Panic

  const SHORT_MAX := 32767

  /** `nlink` is a C `short`. */
  predicate IsShort(n: int) {
    -SHORT_MAX - 1 <= n <= SHORT_MAX
  }

  /** What is left of a number that is stored in a `short`. */
  function Short(n: int): (r: int)
    ensures IsShort(r) && (IsShort(n) ==> r == n) && (r - n) % 65536 == 0
  {
    (n + 32768) % 65536 - 32768
  }

  /** No used entry has the name. */
  predicate Absent(entries: seq<Dirent>, name: Name) {
    forall l :: 0 <= l < |entries| && entries[l].inum != 0 ==> entries[l].name != name
  }

  /** Position `k` is the first that is not used, or the end. */
  predicate FirstUnused(entries: seq<Dirent>, k: nat) {
    && k <= |entries| && (k < |entries| ==> entries[k].inum == 0)
    && forall l :: 0 <= l < k ==> entries[l].inum != 0
  }

  /** There is a place for another entry: an unused one, or room at the end of the largest file. */
  predicate Room(entries: seq<Dirent>) {
    |entries| < MAXENTRIES || exists l :: 0 <= l < |entries| && l < MAXENTRIES && entries[l].inum == 0
  }

  ghost predicate Shorts(t: Nodes) {
    forall x :: x in t ==> IsShort(t[x].nlink)
  }

  /** The name can be removed from `dp`: it is not "." or "..", it is there, and what it refers to
      is not a directory with entries. */
  ghost predicate Removable(t: Nodes, dp: int, name: Name) {
    name != "." && name != ".." && exists k :: RemovableAt(t, dp, name, k)
  }

  ghost predicate RemovableAt(t: Nodes, dp: int, name: Name, k: int) {
    && Used(t, dp, k) && t[dp].entries[k].name == name && t[dp].entries[k].inum in t
    && (t[t[dp].entries[k].inum].kind == Dir ==> Empty(t, t[dp].entries[k].inum))
  }

  /** `link` gives `ip` this name in `dp`. */
  ghost predicate Linkable(t: Nodes, ip: int, dp: int, name: Name, full: bool) {
    ip in t && t[ip].kind != Dir && dp in t && !full && NoName(t, dp, name) && Room(t[dp].entries)
  }

  /** The name refers to something that is not a directory. */
  ghost predicate NamesFile(t: Nodes, dp: int, name: Name) {
    exists k :: NamesFileAt(t, dp, name, k)
  }

  predicate NamesFileAt(t: Nodes, dp: int, name: Name, k: int) {
    Used(t, dp, k) && t[dp].entries[k].name == name && t[dp].entries[k].inum in t
      && t[t[dp].entries[k].inum].kind != Dir
  }

  /** The name refers to an inode that has been freed. */
  predicate Stale(t: Nodes, dp: int, name: Name) {
    IsDir(t, dp) && exists k :: 0 <= k < |t[dp].entries| && StaleAt(t, t[dp].entries[k], name)
  }

  predicate StaleAt(t: Nodes, e: Dirent, name: Name) {
    e.inum != 0 && e.name == name && e.inum !in t
  }

  /** The entries of a new inode of this kind can be written. */
  predicate Writable(kind: Kind, full: set<int>) {
    2 !in full && (kind == Dir ==> 0 !in full && 1 !in full)
  }

  class Tree {
    const root: int
    var t: Nodes

    constructor (root: int)
      requires root > 0
      ensures this.root == root && t == Fresh(root) && TreeOk(t, root) && Shorts(t)
    {
      this.root, t := root, Fresh(root);
      new;
      FreshTree(root);
    }

    /** The position of the entry with the given name, of which DIRSIZ bytes count, or -1. */
    method DirLookup(dp: int, name: string) returns (k: int)
      requires dp in t
      ensures k != -1 ==> 0 <= k < |t[dp].entries| && t[dp].entries[k].inum != 0 && t[dp].entries[k].name == Trunc(name)
      ensures k == -1 ==> Absent(t[dp].entries, Trunc(name))
    {
      k := 0;
      while k < |t[dp].entries|
        invariant 0 <= k <= |t[dp].entries|
        invariant forall l :: 0 <= l < k && t[dp].entries[l].inum != 0 ==> t[dp].entries[l].name != Trunc(name)
      {
        if t[dp].entries[k].inum != 0 && Trunc(t[dp].entries[k].name) == Trunc(name) {
          return;
        }
        k := k + 1;
      }
      return -1;
    }

    /** Enter a name, in the first unused entry or at the end.  Fails if the name is there, if the
        directory is as large as a file gets or, when `full`, because the disk is. */
    method DirLink(dp: int, name: string, inum: int, full: bool) returns (ok: bool, ghost k: nat)
      requires dp in t && inum != 0
      modifies this`t
      ensures ok <==> !full && Absent(old(t)[dp].entries, Trunc(name)) && Room(old(t)[dp].entries)
      ensures !ok ==> t == old(t)
      ensures ok ==> FirstUnused(old(t)[dp].entries, k) && k < MAXENTRIES
      ensures ok ==> t == old(t)[dp := old(t)[dp].(entries := Enter(old(t)[dp].entries, k, Dirent(inum, Trunc(name))))]
    {
      k := 0;
      var found := DirLookup(dp, name);
      if found != -1 {
        return false, 0;
      }
      var off := 0;
      while off < |t[dp].entries|
        invariant 0 <= off <= |t[dp].entries| && forall l :: 0 <= l < off ==> t[dp].entries[l].inum != 0
      {
        if t[dp].entries[off].inum == 0 {
          break;
        }
        off := off + 1;
      }
      if full || off >= MAXENTRIES {
        return false, 0;
      }
      t := t[dp := t[dp].(entries := Enter(t[dp].entries, off, Dirent(inum, Trunc(name))))];
      return true, off;
    }

    method IsDirEmpty(d: int) returns (b: bool)
      requires d in t
      ensures b <==> Empty(t, d)
    {
      var off := 2;
      while off < |t[d].entries|
        invariant 2 <= off && forall k :: 2 <= k < off && k < |t[d].entries| ==> t[d].entries[k].inum == 0
      {
        if t[d].entries[off].inum != 0 {
          return false;
        }
        off := off + 1;
      }
      return true;
    }

    /** Drop a reference: an inode without links is freed unless it is `open` elsewhere. */
    method IPut(x: int, open: bool)
      requires TreeOk(t, root) && x in t
      modifies this`t
      ensures TreeOk(t, root)
      ensures t == if old(t)[x].nlink == 0 && !open then old(t) - {x} else old(t)
    {
      if t[x].nlink == 0 && !open {
        ReclaimedOk(t, root, x);
        t := t - {x};
      }
    }

    /** `link`: inode `ip` gets the name `name` in `dp`.  `dp` is -1 if its path does not lead to a
        directory. */
    method SysLink(ip: int, dp: int, name: string, full: bool) returns (r: Result, ghost k: nat)
      requires TreeOk(t, root) && Shorts(t) && ip in t && (dp == -1 || IsDir(t, dp))
      modifies this`t
      ensures Shorts(t) && (r == Ok || r == Failed)
      ensures r == Failed ==> t == old(t)
      ensures r == Ok <==> dp != -1 && Linkable(old(t), ip, dp, Trunc(name), full)
      ensures r == Ok ==> OpenAt(old(t), dp, k)
      ensures r == Ok ==> t == Entered(old(t), dp, k, Trunc(name), ip,
                                       old(t)[ip].(nlink := Short(old(t)[ip].nlink + 1)))
      ensures TreeOk(t, root) <==> !(r == Ok && (old(t)[ip].nlink == SHORT_MAX || !Linked(old(t), dp)))
    {
      k := 0;
      if t[ip].kind == Dir {
        return Failed, k;
      }
      assert CountOk(t, ip);
      t := t[ip := t[ip].(nlink := Short(t[ip].nlink + 1))];
      var ok := false;
      if dp != -1 {
        ok, k := DirLink(dp, name, ip, full);
      }
      if !ok {
        t := t[ip := t[ip].(nlink := Short(t[ip].nlink - 1))];
        assert t == old(t);
        return Failed, k;
      }
      FirstIsOpen(old(t), root, dp, k, Trunc(name));
      LinkDone(old(t), root, ip, dp, Trunc(name), k);
      assert t == Entered(old(t), dp, k, Trunc(name), ip, old(t)[ip].(nlink := Short(old(t)[ip].nlink + 1)));
      return Ok, k;
    }

    /** `unlink`: remove the name from `dp`.  `open` tells whether the inode is in use elsewhere. */
    method SysUnlink(dp: int, name: string, open: bool) returns (r: Result, ghost k: int, ghost ip: int)
      requires TreeOk(t, root) && Shorts(t) && (dp == -1 || IsDir(t, dp))
      modifies this`t
      ensures TreeOk(t, root) && Shorts(t) && (r == Ok || r == Failed)
      ensures r == Failed ==> t == old(t)
      ensures r == Ok <==> dp != -1 && Removable(old(t), dp, Trunc(name))
      ensures r == Ok ==> EntryFor(old(t), dp, k, ip) && old(t)[dp].entries[k].name == Trunc(name)
      ensures r == Ok ==> (old(t)[ip].kind == Dir ==> Empty(old(t), ip)) && t == Dropped(old(t), dp, k, ip, open)
    {
      k, ip := -1, 0;
      if dp == -1 {
        return Failed, k, ip;
      }
      var nm := Trunc(name);
      if nm == "." || nm == ".." {
        return Failed, k, ip;
      }
      var off := DirLookup(dp, nm);
      if off == -1 {
        assert !Removable(t, dp, nm);
        return Failed, k, ip;
      }
      var x := t[dp].entries[off].inum;
      k, ip := off, x;
      LookedUp(t, root, dp, off, nm);
      if t[x].nlink < 1 {
        return Panic, k, ip;
      }
      if t[x].kind == Dir {
        var empty := IsDirEmpty(x);
        if !empty {
          NotRemovable(t, root, dp, nm, off);
          return Failed, k, ip;
        }
      }
      assert RemovableAt(t, dp, nm, off);
      Remove(dp, off, x, open);
      return Ok, k, ip;
    }

    /** The part of `unlink` after the tests: the entry goes, the counts go down, and the inode
        goes if that was its last link and nobody has it open. */
    method Remove(dp: int, off: nat, x: int, open: bool)
      requires TreeOk(t, root) && Shorts(t) && EntryFor(t, dp, off, x) && (t[x].kind == Dir ==> Empty(t, x))
      modifies this`t
      ensures TreeOk(t, root) && Shorts(t) && t == Dropped(old(t), dp, off, x, open)
    {
      RemovedOk(t, root, dp, off, x);
      t := t[dp := t[dp].(entries := t[dp].entries[off := NOENTRY])];
      if t[x].kind == Dir {
        t := t[dp := t[dp].(nlink := t[dp].nlink - 1)];
      }
      t := t[x := t[x].(nlink := t[x].nlink - 1)];
      assert t == Removed(old(t), dp, off, x);
      IPut(x, open);
    }

    /** `create`: a new inode `x`, or none when `x` is -1, under the name in `dp`.  `full` tells which
        of the three entries cannot be written.  A name that refers to a freed inode, which only the
        ".." of an unlinked directory can, makes `ilock` panic. */
    method Create(dp: int, name: string, kind: Kind, x: int, full: set<int>) returns (r: Result, ghost k: nat)
      requires TreeOk(t, root) && Shorts(t) && (dp == -1 || IsDir(t, dp)) && (x == -1 || (x !in t && x > 0))
      modifies this`t
      ensures Shorts(t) && (r != Ok ==> t == old(t))
      ensures dp == -1 ==> r == Failed
      ensures r == Panic <==> dp != -1 && Stale(old(t), dp, Trunc(name))
      ensures r == Panic ==> !Linked(old(t), dp)
      ensures dp != -1 && !NoName(old(t), dp, Trunc(name)) ==>
                t == old(t) && (r == Ok <==> kind == File && NamesFile(old(t), dp, Trunc(name)))
      ensures dp != -1 && NoName(old(t), dp, Trunc(name)) ==>
                (r == Ok <==> x != -1 && Writable(kind, full) && Room(old(t)[dp].entries))
      ensures r == Ok && NoName(old(t), dp, Trunc(name)) ==>
                OpenAt(old(t), dp, k) && t == Born(old(t), dp, k, Trunc(name), x, kind)
      ensures TreeOk(t, root) <==> !(r == Ok && NoName(old(t), dp, Trunc(name)) && !Linked(old(t), dp))
    {
      k := 0;
      if dp == -1 {
        return Failed, k;
      }
      var nm := Trunc(name);
      var found := DirLookup(dp, nm);
      if found != -1 {
        assert Used(t, dp, found);
        NotFile(t, root, dp, nm, found);
        var y := t[dp].entries[found].inum;
        if y !in t {
          return Panic, k;
        }
        if kind == File && (t[y].kind == File || t[y].kind == Device) {
          assert NamesFileAt(t, dp, nm, found);
          return Ok, k;
        }
        return Failed, k;
      }
      if x == -1 {
        return Failed, k;
      }
      var ok;
      ok, k := Attach(dp, nm, x, kind, full);
      return if ok then Ok else Failed, k;
    }

    /** The new inode's count goes to zero, and `iput` frees it. */
    method Forget(x: int, ghost t0: Nodes)
      requires x !in t0 && x in t && t == t0[x := t[x]]
      modifies this`t
      ensures t == t0
    {
      t := t[x := t[x].(nlink := 0)];
      AddRemoveNode(t0, t, x);
      t := t - {x};
    }

    /** The part of `create` that makes the new inode and its entries, or undoes what it has done. */
    method Attach(dp: int, nm: Name, x: int, kind: Kind, full: set<int>) returns (ok: bool, ghost k: nat)
      requires TreeOk(t, root) && Shorts(t) && IsDir(t, dp) && x !in t && x > 0 && NoName(t, dp, nm)
      modifies this`t
      ensures Shorts(t) && (ok <==> Writable(kind, full) && Room(old(t)[dp].entries))
      ensures !ok ==> t == old(t)
      ensures ok ==> OpenAt(old(t), dp, k) && t == Born(old(t), dp, k, nm, x, kind)
      ensures TreeOk(t, root) <==> !(ok && !Linked(old(t), dp))
    {
      NoWrap(t, root, dp);
      TruncName(nm);
      k, ok := 0, true;
      t := t[x := Node(kind, 1, [])];
      if kind == Dir {
        ok := AddDots(x, dp, full);
      }
      if ok {
        ok, k := DirLink(dp, nm, x, 2 in full);
      }
      if !ok {
        Forget(x, old(t));
        return false, k;
      }
      if kind == Dir {
        t := t[dp := t[dp].(nlink := Short(t[dp].nlink + 1))];
      }
      FirstIsOpen(old(t), root, dp, k, nm);
      BirthDone(old(t), root, dp, k, nm, x, kind);
      assert t == Born(old(t), dp, k, nm, x, kind);
      return true, k;
    }

    /** The "." and ".." of a new directory. */
    method AddDots(x: int, dp: int, full: set<int>) returns (ok: bool)
      requires x in t && t[x].entries == [] && x != 0 && dp != 0 && dp in t && dp != x
      modifies this`t
      ensures x in t && t == old(t)[x := t[x]]
      ensures t[x] == old(t)[x].(entries := t[x].entries) && (ok <==> 0 !in full && 1 !in full)
      ensures ok ==> t[x].entries == [Dirent(x, "."), Dirent(dp, "..")]
    {
      ghost var k;
      ok, k := DirLink(x, ".", x, 0 in full);
      if ok {
        assert t[x].entries == [Dirent(x, ".")];
        ok, k := DirLink(x, "..", dp, 1 in full);
        assert ok ==> k == 1;
      }
    }
  }

  lemma TruncName(name: Name)
    ensures Trunc(name) == name
  {
  }

  lemma AddRemoveNode(t: Nodes, t': Nodes, x: int)
    requires x !in t && x in t' && t' == t[x := t'[x]]
    ensures t' - {x} == t
  {
    assert (t' - {x}).Keys == t.Keys;
  }

  /** The tree without entry `k` of `dp`, which is for `x`. */
  function Removed(t: Nodes, dp: int, k: nat, x: int): Nodes
    requires dp in t && x in t && k < |t[dp].entries|
  {
    if t[x].kind == Dir then RemovedDir(t, dp, k, x) else RemovedFile(t, dp, k, x)
  }

  lemma RemovedOk(t: Nodes, root: int, dp: int, k: int, x: int)
    requires TreeOk(t, root) && Shorts(t) && EntryFor(t, dp, k, x) && (t[x].kind == Dir ==> Empty(t, x))
    ensures x != dp && x in Removed(t, dp, k, x) && TreeOk(Removed(t, dp, k, x), root) && Shorts(Removed(t, dp, k, x))
  {
    assert CountOk(t, x) && CountOk(t, dp) && (dp, k) in Refs(t, x);
    if t[x].kind == Dir {
      OnlyEntry(t, root, dp, k, x);
      RemovedDirOk(t, root, dp, k, x);
    } else {
      RemovedFileOk(t, root, dp, k, x);
    }
  }

  /** The tree after an unlink: the entry is gone, and so is an inode that nobody can reach. */
  function Dropped(t: Nodes, dp: int, k: nat, x: int, open: bool): Nodes
    requires dp in t && x in t && k < |t[dp].entries|
  {
    var t' := Removed(t, dp, k, x);
    if t'[x].nlink == 0 && !open then t' - {x} else t'
  }

  /** The link count of a directory is far from the largest `short`. */
  lemma NoWrap(t: Nodes, root: int, d: int)
    requires TreeOk(t, root) && IsDir(t, d)
    ensures d > 0 && 0 <= t[d].nlink < MAXENTRIES
  {
    assert CountOk(t, d);
    if Linked(t, d) {
      FewLinks(t, root, d);
    }
  }

  /** The tree after a successful `create`. */
  function Born(t: Nodes, dp: int, k: nat, name: Name, x: int, kind: Kind): Nodes
    requires dp in t && k <= |t[dp].entries|
  {
    if kind == Dir then MadeDir(t, dp, k, name, x) else Entered(t, dp, k, name, x, Node(kind, 1, []))
  }

  lemma UsedExists(t: Nodes, root: int, d: int, k: int)
    requires TreeOk(t, root) && Linked(t, d) && Used(t, d, k)
    ensures t[d].entries[k].inum in t
  {
    assert DirOk(t, d) && EntryOk(t, root, d, k, t[d].entries[k].inum);
  }

  lemma LookedUp(t: Nodes, root: int, dp: int, k: int, name: Name)
    requires TreeOk(t, root) && Used(t, dp, k)
    requires t[dp].entries[k].name == name && name != "." && name != ".."
    ensures EntryFor(t, dp, k, t[dp].entries[k].inum) && t[t[dp].entries[k].inum].nlink >= 1
  {
    assert DirOk(t, dp);
    var x := t[dp].entries[k].inum;
    assert EntryOk(t, root, dp, k, x) && CountOk(t, x);
    assert (dp, k) in Refs(t, x);
  }

  /** A name that refers to a directory with entries cannot be removed. */
  lemma NotRemovable(t: Nodes, root: int, dp: int, name: Name, k: int)
    requires TreeOk(t, root) && Used(t, dp, k) && t[dp].entries[k].name == name && !RemovableAt(t, dp, name, k)
    ensures !Removable(t, dp, name)
  {
    forall l ensures !RemovableAt(t, dp, name, l) {
      assert NamesApart(t, dp, k, l);
    }
  }

  lemma NotFile(t: Nodes, root: int, dp: int, name: Name, k: int)
    requires TreeOk(t, root) && Used(t, dp, k) && t[dp].entries[k].name == name
    ensures !NoName(t, dp, name) && (NamesFile(t, dp, name) <==> NamesFileAt(t, dp, name, k))
    ensures Stale(t, dp, name) <==> t[dp].entries[k].inum !in t
    ensures Stale(t, dp, name) ==> !Linked(t, dp)
  {
    forall l | Used(t, dp, l) && t[dp].entries[l].name == name ensures l == k {
      assert NamesApart(t, dp, k, l);
    }
    if Linked(t, dp) {
      UsedExists(t, root, dp, k);
    }
  }

  /** The first unused place of a directory is not one of its dots. */
  lemma FirstIsOpen(t: Nodes, root: int, dp: int, k: nat, name: Name)
    requires TreeOk(t, root) && IsDir(t, dp) && k < MAXENTRIES && FirstUnused(t[dp].entries, k)
    requires Absent(t[dp].entries, name)
    ensures OpenAt(t, dp, k) && NoName(t, dp, name)
  {
    assert DirOk(t, dp) && CountOk(t, dp);
  }

  /** A directory that is not linked is not the root, and nothing in the tree refers to it. */
  lemma NotReferred(t: Nodes, root: int, dp: int, e: int, l: int)
    requires TreeOk(t, root) && IsDir(t, dp) && !Linked(t, dp)
    ensures dp != root && t[dp].nlink == 0 && !RefAt(t, e, l, dp)
  {
    assert CountOk(t, dp);
    assert RefAt(t, e, l, dp) ==> (e, l) in Refs(t, dp);
  }

  /** A new directory in a directory that is not linked: that one counts as linked again, but no
      entry in its parent is for it. */
  lemma MadeInUnlinked(t: Nodes, root: int, dp: int, k: nat, name: Name, x: int)
    requires TreeOk(t, root) && OpenAt(t, dp, k) && !Linked(t, dp) && x !in t && x > 0
    ensures !HasEntry(MadeDir(t, dp, k, name, x), root, dp)
  {
    var t' := MadeDir(t, dp, k, name, x);
    assert DirOk(t, dp);
    NotReferred(t, root, dp, 0, 0);
    forall l ensures !(l >= 2 && RefAt(t', Parent(t', dp), l, dp)) {
      NotReferred(t, root, dp, Parent(t', dp), l);
    }
  }

  /** A new name in a directory that is not linked is not counted. */
  lemma EnteredInUnlinked(t: Nodes, root: int, dp: int, k: nat, name: Name, x: int, node: Node)
    requires TreeOk(t, root) && OpenAt(t, dp, k) && !Linked(t, dp) && x > 0 && node.kind != Dir
    requires if x in t then t[x].kind != Dir && node.nlink != t[x].nlink else node.nlink != 0
    ensures !CountOk(Entered(t, dp, k, name, x, node), x)
  {
    var t' := Entered(t, dp, k, name, x, node);
    if x in t {
      assert CountOk(t, x);
    } else {
      NoStale(t, root, x);
    }
    forall d, l ensures RefAt(t', d, l, x) <==> RefAt(t, d, l, x) {
    }
    assert Refs(t', x) == Refs(t, x);
  }

  /** A new inode, of whatever kind, keeps the tree in order exactly when its directory is linked. */
  lemma BirthDone(t: Nodes, root: int, dp: int, k: nat, name: Name, x: int, kind: Kind)
    requires TreeOk(t, root) && x !in t && x > 0 && OpenAt(t, dp, k) && NoName(t, dp, name)
    ensures TreeOk(Born(t, dp, k, name, x, kind), root) <==> Linked(t, dp)
  {
    if kind == Dir {
      if Linked(t, dp) {
        MadeOk(t, root, dp, k, name, x);
      } else {
        MadeInUnlinked(t, root, dp, k, name, x);
      }
    } else if Linked(t, dp) {
      EnteredOk(t, root, dp, k, name, x, Node(kind, 1, []));
    } else {
      EnteredInUnlinked(t, root, dp, k, name, x, Node(kind, 1, []));
    }
  }

  /** `link` keeps the tree in order exactly when the directory is linked and the count does not
      wrap. */
  lemma LinkDone(t: Nodes, root: int, ip: int, dp: int, name: Name, k: nat)
    requires TreeOk(t, root) && ip in t && IsShort(t[ip].nlink) && t[ip].kind != Dir
    requires OpenAt(t, dp, k) && NoName(t, dp, name)
    ensures TreeOk(Entered(t, dp, k, name, ip, t[ip].(nlink := Short(t[ip].nlink + 1))), root)
            <==> t[ip].nlink < SHORT_MAX && Linked(t, dp)
  {
    assert CountOk(t, ip);
    var node := t[ip].(nlink := Short(t[ip].nlink + 1));
    if !Linked(t, dp) {
      EnteredInUnlinked(t, root, dp, k, name, ip, node);
    } else if t[ip].nlink < SHORT_MAX {
      EnteredOk(t, root, dp, k, name, ip, node);
    } else {
      assert !CountOk(Entered(t, dp, k, name, ip, node), ip);
    }
  }

  // --- around the calls ------------------------------------------------------------------------------------

  /** The tree that `mkfs` starts from. */
  function Fresh(root: int): Nodes {
    map[root := Node(Dir, 1, [Dirent(root, "."), Dirent(root, "..")])]
  }

  lemma FreshTree(root: int)
    requires root > 0
    ensures TreeOk(Fresh(root), root) && Shorts(Fresh(root))
  {
    var t := Fresh(root);
    assert Refs(t, root) == {(root, 1)};
    assert Up(t, root, 0) == root;
  }

  /** Unlinking undoes a link: every inode is as it was, up to an unused entry in the directory. */
  lemma UnlinkUndoesLink(t: Nodes, root: int, dp: int, k: int, name: Name, ip: int)
    requires TreeOk(t, root) && ip in t && t[ip].kind != Dir && Vacant(t, dp, k)
    ensures var linked := Entered(t, dp, k, name, ip, t[ip].(nlink := t[ip].nlink + 1));
            && ip in linked && dp in linked && k < |linked[dp].entries|
            && RemovedFile(linked, dp, k, ip) == t[dp := t[dp].(entries := Enter(t[dp].entries, k, NOENTRY))]
  {
    var linked := Entered(t, dp, k, name, ip, t[ip].(nlink := t[ip].nlink + 1));
    assert linked[dp].entries[k := NOENTRY] == Enter(t[dp].entries, k, NOENTRY);
  }

  /** The root with a file in it, and a directory that was in it and is still open. */
  function OpenUnlinked(): Nodes {
    map[1 := Node(Dir, 1, [Dirent(1, "."), Dirent(1, ".."), Dirent(3, "f")]),
        2 := Node(Dir, 0, [Dirent(2, "."), Dirent(1, "..")]),
        3 := Node(File, 1, [])]
  }

  /** `create` and `link` do not look whether the directory is still linked: in this tree, which is
      in order, a new file, a new directory and a new link in directory 2 each leave one that is
      not. */
  lemma UnlinkedParentBreaks(kind: Kind)
    ensures var t := OpenUnlinked();
            && TreeOk(t, 1) && OpenAt(t, 2, 2) && NoName(t, 2, "x")
            && !TreeOk(Born(t, 2, 2, "x", 4, kind), 1)
            && !CountOk(Born(t, 2, 2, "x", 4, kind), if kind == Dir then 1 else 4)
            && !TreeOk(Entered(t, 2, 2, "x", 3, t[3].(nlink := 2)), 1)
  {
    var t := OpenUnlinked();
    OpenUnlinkedOk();
    BirthDone(t, 1, 2, 2, "x", 4, kind);
    LinkDone(t, 1, 3, 2, "x", 2);
    var t' := Born(t, 2, 2, "x", 4, kind);
    if kind == Dir {
      assert Refs(t', 1) == {(1, 1), (2, 1)};
    } else {
      EnteredInUnlinked(t, 1, 2, 2, "x", 4, Node(kind, 1, []));
    }
  }

  lemma OpenUnlinkedOk()
    ensures TreeOk(OpenUnlinked(), 1)
  {
    OpenUnlinkedCounts();
    assert Up(OpenUnlinked(), 1, 0) == 1;
  }

  lemma OpenUnlinkedCounts()
    ensures forall x :: CountOk(OpenUnlinked(), x)
  {
    var t := OpenUnlinked();
    assert Refs(t, 1) == {(1, 1)} && Refs(t, 2) == {} && Refs(t, 3) == {(1, 2)};
  }

  /** The ".." of a directory that is not linked can refer to an inode that has been freed, and then
      `create` of that name panics. */
  lemma StaleHappens()
    ensures var t := Fresh(1)[2 := Node(Dir, 0, [Dirent(2, "."), Dirent(3, "..")])];
            TreeOk(t, 1) && Shorts(t) && Stale(t, 2, "..")
  {
    var t := Fresh(1)[2 := Node(Dir, 0, [Dirent(2, "."), Dirent(3, "..")])];
    assert Refs(t, 1) == {(1, 1)} && Refs(t, 2) == {};
    assert Up(t, 1, 0) == 1 && StaleAt(t, t[2].entries[1], "..");
  }

  // --- a link count that wraps ------------------------------------------------------------------------------

  const CROWD := 16386

  /** Entry `k` of the root: a subdirectory 2 and 16383 names for inode 3. */
  function RootEntry(k: int): Dirent
    requires 0 <= k < CROWD
  {
    if k == 0 then Dirent(1, ".") else if k == 1 then Dirent(1, "..") else if k == 2 then Dirent(2, "d")
    else Dirent(3, NameOf(k))
  }

  /** A name of two bytes for each entry. */
  function NameOf(k: int): Name
    requires 0 <= k < CROWD
  {
    [(k / 150 + 100) as char, (k % 150 + 100) as char]
  }

  /** Entry `k` of the subdirectory: 16384 names for inode 3. */
  function SubEntry(k: int): Dirent
    requires 0 <= k < CROWD
  {
    if k == 0 then Dirent(2, ".") else if k == 1 then Dirent(1, "..") else Dirent(3, NameOf(k))
  }

  /** Two directories with 32767 names for one file between them. */
  function ManyLinks(): Nodes {
    map[1 := Node(Dir, 2, seq(CROWD, k requires 0 <= k < CROWD => RootEntry(k))),
        2 := Node(Dir, 1, seq(CROWD, k requires 0 <= k < CROWD => SubEntry(k))),
        3 := Node(File, SHORT_MAX, [])]
  }

  ghost predicate Crowded(t: Nodes) {
    && t.Keys == {1, 2, 3} && t[1].kind == Dir && t[2].kind == Dir && t[3] == Node(File, SHORT_MAX, [])
    && t[1].nlink == 2 && t[2].nlink == 1 && |t[1].entries| == CROWD && |t[2].entries| == CROWD
    && (forall k :: 0 <= k < CROWD ==> t[1].entries[k] == RootEntry(k))
    && (forall k :: 0 <= k < CROWD ==> t[2].entries[k] == SubEntry(k))
  }

  /** The entries `lo` to `hi` of directory `d`. */
  function Places(d: int, lo: int, hi: int): set<(int, int)> {
    set k | lo <= k < hi :: (d, k)
  }

  lemma {:induction false} PlacesCount(d: int, lo: int, hi: int)
    requires lo <= hi
    ensures |Places(d, lo, hi)| == hi - lo
    decreases hi - lo
  {
    if lo < hi {
      PlacesCount(d, lo, hi - 1);
      assert Places(d, lo, hi) == Places(d, lo, hi - 1) + {(d, hi - 1)};
    }
  }

  lemma CrowdRefs(t: Nodes)
    requires Crowded(t)
    ensures Refs(t, 3) == Places(1, 3, CROWD) + Places(2, 2, CROWD)
    ensures Refs(t, 1) == {(1, 1), (2, 1)} && Refs(t, 2) == {(1, 2)}
  {
  }

  lemma CrowdCounts(t: Nodes, x: int)
    requires Crowded(t)
    ensures CountOk(t, x)
  {
    CrowdRefs(t);
    PlacesCount(1, 3, CROWD);
    PlacesCount(2, 2, CROWD);
    assert Places(1, 3, CROWD) !! Places(2, 2, CROWD);
  }

  lemma CrowdNames(t: Nodes, d: int, k: int, l: int)
    requires Crowded(t)
    ensures NamesApart(t, d, k, l)
  {
  }

  lemma CrowdOneEntry(t: Nodes, d: int, k: int, e: int, l: int, x: int)
    requires Crowded(t)
    ensures OneEntry(t, d, k, e, l, x)
  {
  }

  lemma CrowdEntry(t: Nodes, d: int, k: int, x: int)
    requires Crowded(t)
    ensures EntryOk(t, 1, d, k, x)
  {
  }

  lemma CrowdOk(t: Nodes)
    requires Crowded(t)
    ensures TreeOk(t, 1) && Shorts(t) && Vacant(t, 1, CROWD) && NoName(t, 1, "x")
  {
    forall x ensures CountOk(t, x) { CrowdCounts(t, x); }
    forall d, k, l ensures NamesApart(t, d, k, l) { CrowdNames(t, d, k, l); }
    forall d, k, e, l, x ensures OneEntry(t, d, k, e, l, x) { CrowdOneEntry(t, d, k, e, l, x); }
    forall d, k, x ensures EntryOk(t, 1, d, k, x) { CrowdEntry(t, d, k, x); }
    forall d ensures HasEntry(t, 1, d) && ReachesRoot(t, 1, d) {
      assert RefAt(t, Parent(t, 2), 2, 2) && Up(t, 1, 0) == 1 && Up(t, 2, 1) == 1;
    }
  }

  /** The 32768th link to a file succeeds and leaves a link count of -32768, although every count
      was right before. */
  lemma LinkCountWraps()
    ensures var t := ManyLinks();
            && TreeOk(t, 1) && Shorts(t) && Vacant(t, 1, CROWD) && NoName(t, 1, "x")
            && var t' := Entered(t, 1, CROWD, "x", 3, t[3].(nlink := Short(t[3].nlink + 1)));
            && t'[3].nlink == -SHORT_MAX - 1 && !TreeOk(t', 1)
  {
    CrowdOk(ManyLinks());
    LinkDone(ManyLinks(), 1, 3, 1, "x", CROWD);
  }
}
