/** Directories as lists of entries, and what link counts count. */
module DirTree {
  const DIRSIZ := 14

  /** How many entries of 16 bytes the largest file holds: MAXFILE * BSIZE / 16. */
  const MAXENTRIES := 17152

  datatype Kind = Dir | File | Device

  /** What fits the `name` field of a directory entry. */
  type Name = s: string | |s| <= DIRSIZ

  /** A directory entry; the inode number 0 marks an unused one. */
  datatype Dirent = Dirent(inum: int, name: Name)

  datatype Node = Node(kind: Kind, nlink: int, entries: seq<Dirent>)

  type Nodes = map<int, Node>

  /** What `skipelem` leaves of a path element, and what `namecmp` looks at. */
  function Trunc(name: string): Name {
    if |name| >= DIRSIZ then name[..DIRSIZ] else name
  }

  predicate IsDir(t: Nodes, d: int) {
    d in t && t[d].kind == Dir
  }

  predicate Linked(t: Nodes, d: int) {
    IsDir(t, d) && t[d].nlink > 0
  }

  /** Entry `k` of a linked directory, other than its ".", refers to `x`. */
  predicate RefAt(t: Nodes, d: int, k: int, x: int) {
    Linked(t, d) && 1 <= k < |t[d].entries| && t[d].entries[k].inum == x
  }

  /** The entries other than "." that refer to `x` in linked directories. */
  function Refs(t: Nodes, x: int): set<(int, int)> {
    set d, k | d in t && 1 <= k < |t[d].entries| && RefAt(t, d, k, x) :: (d, k)
  }

  /** The directory that ".." refers to. */
  function Parent(t: Nodes, d: int): int {
    if d in t && |t[d].entries| >= 2 then t[d].entries[1].inum else 0
  }

  // --- the invariant --------------------------------------------------------------------------------

  /** Nothing but "." and ".." is in the directory. */
  ghost predicate Empty(t: Nodes, d: int) {
    d in t && forall k :: 2 <= k < |t[d].entries| ==> t[d].entries[k].inum == 0
  }

  /** A directory has its two dots.  One that is not linked any more has nothing else, and its
      ".." may be stale. */
  ghost predicate DirOk(t: Nodes, d: int) {
    IsDir(t, d) ==>
      && 2 <= |t[d].entries| <= MAXENTRIES && t[d].entries[0] == Dirent(d, ".")
      && t[d].entries[1].name == ".." && t[d].entries[1].inum != 0
      && (if Linked(t, d) then Linked(t, Parent(t, d)) else Empty(t, d))
  }

  /** The directory that `n` times ".." leads to. */
  function Up(t: Nodes, d: int, n: nat): int
    decreases n
  {
    if n == 0 then d else Up(t, Parent(t, d), n - 1)
  }

  /** The directory is part of the tree: its parents lead to the root. */
  ghost predicate ReachesRoot(t: Nodes, root: int, d: int) {
    Linked(t, d) ==> exists n: nat :: Up(t, d, n) == root
  }

  /** A used entry other than "." and "..": it refers to an inode that exists, and a directory is
      entered only in its parent. */
  predicate EntryOk(t: Nodes, root: int, d: int, k: int, x: int) {
    k >= 2 && x != 0 && RefAt(t, d, k, x) ==>
      && x in t && t[d].entries[k].name != "." && t[d].entries[k].name != ".."
      && (t[x].kind == Dir ==> Linked(t, x) && x != root && Parent(t, x) == d)
  }

  /** Entry `k` of a directory is in use. */
  predicate Used(t: Nodes, d: int, k: int) {
    IsDir(t, d) && 0 <= k < |t[d].entries| && t[d].entries[k].inum != 0
  }

  predicate NamesApart(t: Nodes, d: int, k: int, l: int) {
    Used(t, d, k) && Used(t, d, l) && t[d].entries[k].name == t[d].entries[l].name ==> k == l
  }

  /** A directory has one entry that is not "." or "..". */
  predicate OneEntry(t: Nodes, d: int, k: int, e: int, l: int, x: int) {
    x in t && t[x].kind == Dir && k >= 2 && l >= 2 && RefAt(t, d, k, x) && RefAt(t, e, l, x) ==> d == e && k == l
  }

  ghost predicate HasEntry(t: Nodes, root: int, d: int) {
    Linked(t, d) && d != root ==> exists k :: k >= 2 && RefAt(t, Parent(t, d), k, d)
  }

  /** The link count counts. */
  predicate CountOk(t: Nodes, x: int) {
    x in t ==> x > 0 && t[x].nlink == |Refs(t, x)|
  }

  ghost predicate TreeOk(t: Nodes, root: int) {
    && Linked(t, root) && Parent(t, root) == root
    && (forall d :: DirOk(t, d))
    && (forall d, k, x :: EntryOk(t, root, d, k, x))
    && (forall d, k, l :: NamesApart(t, d, k, l))
    && (forall d, k, e, l, x :: OneEntry(t, d, k, e, l, x))
    && (forall d :: HasEntry(t, root, d))
    && (forall d :: ReachesRoot(t, root, d))
    && (forall x :: CountOk(t, x))
  }

  /** Names are unique in a directory, up to the first DIRSIZ bytes. */
  lemma NamesUnique(t: Nodes, root: int, d: int, k: int, l: int)
    requires TreeOk(t, root) && Used(t, d, k) && Used(t, d, l)
    requires Trunc(t[d].entries[k].name) == Trunc(t[d].entries[l].name)
    ensures k == l
  {
    assert NamesApart(t, d, k, l);
  }

  // --- the way up -----------------------------------------------------------------------------------

  /** Except at `x`, the ".." of a linked directory is the same in both trees, and is not `x`. */
  predicate SameUp(t: Nodes, t': Nodes, x: int, d: int) {
    Linked(t, d) && d != x ==> Linked(t, Parent(t, d)) && Parent(t, d) != x && Parent(t', d) == Parent(t, d)
  }

  lemma {:induction false} UpSame(t: Nodes, t': Nodes, x: int, d: int, n: nat)
    requires (forall e :: SameUp(t, t', x, e)) && Linked(t, d) && d != x
    ensures Up(t', d, n) == Up(t, d, n)
    decreases n
  {
    if n > 0 {
      assert SameUp(t, t', x, d);
      UpSame(t, t', x, Parent(t, d), n - 1);
    }
  }

  lemma StillReaches(t: Nodes, t': Nodes, root: int, x: int, d: int)
    requires (forall e :: SameUp(t, t', x, e)) && ReachesRoot(t, root, d) && Linked(t, d) && d != x
    ensures exists n: nat :: Up(t', d, n) == root
  {
    var n: nat :| Up(t, d, n) == root;
    UpSame(t, t', x, d, n);
  }

  lemma {:induction false} UpUp(t: Nodes, d: int, m: nat, n: nat)
    ensures Up(t, d, m + n) == Up(t, Up(t, d, m), n)
    decreases m
  {
    if m > 0 {
      UpUp(t, Parent(t, d), m - 1, n);
    }
  }

  lemma {:induction false} UpRoot(t: Nodes, root: int, n: nat)
    requires Parent(t, root) == root
    ensures Up(t, root, n) == root
    decreases n
  {
    if n > 0 {
      UpRoot(t, root, n - 1);
    }
  }

  lemma {:induction false} UpRounds(t: Nodes, d: int, m: nat, n: nat)
    requires Up(t, d, m) == d
    ensures Up(t, d, m * n) == d
    decreases n
  {
    if n > 0 {
      UpRounds(t, d, m, n - 1);
      UpUp(t, d, m * (n - 1), m);
      assert m * (n - 1) + m == m * n;
    }
  }

  /** No linked directory but the root is above itself. */
  lemma NoCycle(t: Nodes, root: int, d: int, m: nat)
    requires TreeOk(t, root) && Linked(t, d) && m > 0 && Up(t, d, m) == d
    ensures d == root
  {
    assert ReachesRoot(t, root, d);
    var n: nat :| Up(t, d, n) == root;
    UpRounds(t, d, m, n);
    assert m * n >= n;
    UpUp(t, d, n, m * n - n);
    UpRoot(t, root, m * n - n);
  }

  // --- entering a name ------------------------------------------------------------------------------

  /** The entries with `e` at position `k`, which may be the end. */
  function Enter(entries: seq<Dirent>, k: nat, e: Dirent): seq<Dirent>
    requires k <= |entries|
  {
    if k == |entries| then entries + [e] else entries[k := e]
  }

  /** Position `k` can take a new entry. */
  predicate OpenAt(t: Nodes, d: int, k: int) {
    && IsDir(t, d) && 2 <= k <= |t[d].entries| && k < MAXENTRIES
    && (k < |t[d].entries| ==> t[d].entries[k].inum == 0)
  }

  predicate Vacant(t: Nodes, d: int, k: int) {
    Linked(t, d) && OpenAt(t, d, k)
  }

  /** The name is not in use in the directory. */
  ghost predicate NoName(t: Nodes, d: int, name: Name) {
    forall k :: Used(t, d, k) ==> t[d].entries[k].name != name
  }

  /** `dp` has entry `k` for `x`, which is now as `node` says. */
  function Entered(t: Nodes, dp: int, k: nat, name: Name, x: int, node: Node): Nodes
    requires dp in t && k <= |t[dp].entries|
  {
    t[x := node][dp := t[dp].(entries := Enter(t[dp].entries, k, Dirent(x, name)))]
  }

  /** `x` is a file that exists, or a new one. */
  predicate NewLink(t: Nodes, x: int, node: Node) {
    && x > 0 && node.kind != Dir
    && (if x in t then t[x].kind != Dir && node == t[x].(nlink := t[x].nlink + 1) else node.nlink == 1)
  }

  lemma EnteredRef(t: Nodes, root: int, dp: int, k: int, name: Name, x: int, node: Node, d: int, l: int, y: int)
    requires TreeOk(t, root) && Vacant(t, dp, k) && NewLink(t, x, node) && y != 0
    ensures RefAt(Entered(t, dp, k, name, x, node), d, l, y) <==> RefAt(t, d, l, y) || (d == dp && l == k && y == x)
    ensures Linked(Entered(t, dp, k, name, x, node), d) <==> Linked(t, d)
  {
  }

  /** A new inode is not referred to by stale entries. */
  lemma NoStale(t: Nodes, root: int, x: int)
    requires TreeOk(t, root) && x !in t && x > 0
    ensures Refs(t, x) == {}
  {
    forall d, k ensures !RefAt(t, d, k, x) {
      assert EntryOk(t, root, d, k, x) && DirOk(t, d);
    }
  }

  lemma EnteredCount(t: Nodes, root: int, dp: int, k: int, name: Name, x: int, node: Node, y: int)
    requires TreeOk(t, root) && Vacant(t, dp, k) && NewLink(t, x, node)
    ensures CountOk(Entered(t, dp, k, name, x, node), y)
  {
    assert CountOk(t, y) && CountOk(t, dp);
    if y in Entered(t, dp, k, name, x, node) {
      EnteredRefs(t, root, dp, k, name, x, node, y);
      if x !in t {
        NoStale(t, root, x);
      }
    }
  }

  lemma EnteredRefs(t: Nodes, root: int, dp: int, k: int, name: Name, x: int, node: Node, y: int)
    requires TreeOk(t, root) && Vacant(t, dp, k) && NewLink(t, x, node) && y != 0
    ensures Refs(Entered(t, dp, k, name, x, node), y) == if y == x then Refs(t, x) + {(dp, k)} else Refs(t, y)
    ensures (dp, k) !in Refs(t, x)
  {
    var t' := Entered(t, dp, k, name, x, node);
    forall d, l ensures RefAt(t', d, l, y) <==> RefAt(t, d, l, y) || (d == dp && l == k && y == x) {
      EnteredRef(t, root, dp, k, name, x, node, d, l, y);
    }
  }

  lemma ParentKept(t: Nodes, root: int, dp: int, k: int, name: Name, x: int, node: Node, d: int)
    requires TreeOk(t, root) && Vacant(t, dp, k) && NewLink(t, x, node)
    ensures Linked(Entered(t, dp, k, name, x, node), d) <==> Linked(t, d)
    ensures Linked(t, d) ==> Parent(Entered(t, dp, k, name, x, node), d) == Parent(t, d)
  {
    assert DirOk(t, d);
  }

  lemma EnteredDirs(t: Nodes, root: int, dp: int, k: int, name: Name, x: int, node: Node, d: int)
    requires TreeOk(t, root) && Vacant(t, dp, k) && NewLink(t, x, node)
    ensures DirOk(Entered(t, dp, k, name, x, node), d) && HasEntry(Entered(t, dp, k, name, x, node), root, d)
  {
    assert DirOk(t, d) && HasEntry(t, root, d) && CountOk(t, d);
    ParentKept(t, root, dp, k, name, x, node, d);
    ParentKept(t, root, dp, k, name, x, node, Parent(t, d));
    if Linked(t, d) && d != root {
      var l :| l >= 2 && RefAt(t, Parent(t, d), l, d);
      EnteredRef(t, root, dp, k, name, x, node, Parent(t, d), l, d);
    }
  }

  lemma EnteredReaches(t: Nodes, root: int, dp: int, k: int, name: Name, x: int, node: Node, d: int)
    requires TreeOk(t, root) && Vacant(t, dp, k) && NewLink(t, x, node)
    ensures ReachesRoot(Entered(t, dp, k, name, x, node), root, d)
  {
    var t' := Entered(t, dp, k, name, x, node);
    forall e ensures SameUp(t, t', 0, e) {
      assert DirOk(t, e) && CountOk(t, Parent(t, e));
      ParentKept(t, root, dp, k, name, x, node, e);
    }
    ParentKept(t, root, dp, k, name, x, node, d);
    if Linked(t, d) {
      assert CountOk(t, d) && ReachesRoot(t, root, d);
      StillReaches(t, t', root, 0, d);
    }
  }

  lemma EnteredEntry(t: Nodes, root: int, dp: int, k: int, name: Name, x: int, node: Node, d: int, l: int, y: int)
    requires TreeOk(t, root) && Vacant(t, dp, k) && NewLink(t, x, node) && name != "." && name != ".."
    ensures EntryOk(Entered(t, dp, k, name, x, node), root, d, l, y)
  {
    assert EntryOk(t, root, d, l, y);
    ParentKept(t, root, dp, k, name, x, node, y);
    if y != 0 {
      EnteredRef(t, root, dp, k, name, x, node, d, l, y);
    }
  }

  /** The names "." and ".." are always in use. */
  lemma DotsUsed(t: Nodes, root: int, d: int)
    requires TreeOk(t, root) && Linked(t, d)
    ensures Used(t, d, 0) && t[d].entries[0].name == "." && Used(t, d, 1) && t[d].entries[1].name == ".."
  {
    assert DirOk(t, d) && CountOk(t, d) && CountOk(t, Parent(t, d));
  }

  /** Entering a file under a new name keeps the tree in order. */
  lemma EnteredOk(t: Nodes, root: int, dp: int, k: int, name: Name, x: int, node: Node)
    requires TreeOk(t, root) && Vacant(t, dp, k) && NewLink(t, x, node) && NoName(t, dp, name)
    ensures TreeOk(Entered(t, dp, k, name, x, node), root)
  {
    var t' := Entered(t, dp, k, name, x, node);
    DotsUsed(t, root, dp);
    ParentKept(t, root, dp, k, name, x, node, root);
    forall d ensures DirOk(t', d) && HasEntry(t', root, d) && ReachesRoot(t', root, d) {
      EnteredDirs(t, root, dp, k, name, x, node, d);
      EnteredReaches(t, root, dp, k, name, x, node, d);
    }
    forall d, l, y ensures EntryOk(t', root, d, l, y) {
      EnteredEntry(t, root, dp, k, name, x, node, d, l, y);
    }
    forall d, l, m ensures NamesApart(t', d, l, m) {
      assert NamesApart(t, d, l, m);
      ParentKept(t, root, dp, k, name, x, node, d);
      assert Used(t, d, l) ==> d == dp ==> t[d].entries[l].name != name;
      assert Used(t, d, m) ==> d == dp ==> t[d].entries[m].name != name;
    }
    forall d, l, e, m, y ensures OneEntry(t', d, l, e, m, y) {
      assert OneEntry(t, d, l, e, m, y) && CountOk(t, y);
      if y in t' && t'[y].kind == Dir {
        EnteredRef(t, root, dp, k, name, x, node, d, l, y);
        EnteredRef(t, root, dp, k, name, x, node, e, m, y);
      }
    }
    forall y ensures CountOk(t', y) {
      EnteredCount(t, root, dp, k, name, x, node, y);
    }
  }

  // --- how many links a directory has -------------------------------------------------------------------

  /** The ".." entries of what the first `n` entries refer to. */
  function ChildDots(entries: seq<Dirent>, n: nat): set<(int, int)>
    requires n <= |entries|
  {
    set k | 2 <= k < n :: (entries[k].inum, 1)
  }

  lemma {:induction false} ChildDotsFew(entries: seq<Dirent>, n: nat)
    requires 2 <= n <= |entries|
    ensures |ChildDots(entries, n)| <= n - 2
    decreases n
  {
    if n > 2 {
      ChildDotsFew(entries, n - 1);
      assert ChildDots(entries, n) == ChildDots(entries, n - 1) + {(entries[n - 1].inum, 1)};
    }
  }

  lemma Smaller(a: set<(int, int)>, b: set<(int, int)>)
    requires a <= b
    ensures |a| <= |b|
  {
    assert b == a + (b - a);
  }

  /** The entry for a directory, or the root's own "..". */
  lemma OwnEntry(t: Nodes, root: int, d: int) returns (own: (int, int))
    requires TreeOk(t, root) && Linked(t, d)
    ensures forall e, l :: l >= 2 && RefAt(t, e, l, d) ==> (e, l) == own
    ensures d == root ==> own == (root, 1)
  {
    assert HasEntry(t, root, d);
    if d == root {
      own := (root, 1);
      forall e, l ensures !(l >= 2 && RefAt(t, e, l, d)) {
        assert EntryOk(t, root, e, l, d) && CountOk(t, d);
      }
    } else {
      var k :| k >= 2 && RefAt(t, Parent(t, d), k, d);
      own := (Parent(t, d), k);
      forall e, l | l >= 2 && RefAt(t, e, l, d) ensures (e, l) == own {
        assert OneEntry(t, e, l, Parent(t, d), k, d);
      }
    }
  }

  /** Each link to a directory but one is the ".." of a directory that it has an entry for, so the
      count is less than the number of entries. */
  lemma FewLinks(t: Nodes, root: int, d: int)
    requires TreeOk(t, root) && Linked(t, d)
    ensures t[d].nlink < |t[d].entries| <= MAXENTRIES
  {
    assert DirOk(t, d) && CountOk(t, d);
    var own := OwnEntry(t, root, d);
    var n := |t[d].entries|;
    var dots := ChildDots(t[d].entries, n);
    forall e, l | (e, l) in Refs(t, d) ensures (e, l) in dots + {own} {
      if l == 1 && e != root {
        assert HasEntry(t, root, e);
        var k :| k >= 2 && RefAt(t, Parent(t, e), k, e);
        assert t[d].entries[k].inum == e;
      }
    }
    Smaller(Refs(t, d), dots + {own});
    ChildDotsFew(t[d].entries, n);
  }

  // --- making a directory ----------------------------------------------------------------------------

  /** A new directory `x` in `dp`. */
  function MadeDir(t: Nodes, dp: int, k: nat, name: Name, x: int): Nodes
    requires dp in t && k <= |t[dp].entries|
  {
    t[x := Node(Dir, 1, [Dirent(x, "."), Dirent(dp, "..")])]
     [dp := t[dp].(entries := Enter(t[dp].entries, k, Dirent(x, name)), nlink := t[dp].nlink + 1)]
  }

  predicate CanMake(t: Nodes, root: int, dp: int, k: int, x: int) {
    Vacant(t, dp, k) && x !in t && x > 0 && x != root
  }

  lemma MadeRef(t: Nodes, root: int, dp: int, k: int, name: Name, x: int, d: int, l: int, y: int)
    requires TreeOk(t, root) && CanMake(t, root, dp, k, x) && y != 0
    ensures var t' := MadeDir(t, dp, k, name, x);
            && (RefAt(t', d, l, y) <==>
                  RefAt(t, d, l, y) || (d == dp && l == k && y == x) || (d == x && l == 1 && y == dp))
            && (Linked(t', d) <==> Linked(t, d) || d == x)
            && (Linked(t', d) ==> Parent(t', d) == if d == x then dp else Parent(t, d))
  {
    assert DirOk(t, d);
  }

  lemma MadeCount(t: Nodes, root: int, dp: int, k: int, name: Name, x: int, y: int)
    requires TreeOk(t, root) && CanMake(t, root, dp, k, x)
    ensures CountOk(MadeDir(t, dp, k, name, x), y)
  {
    var t' := MadeDir(t, dp, k, name, x);
    assert CountOk(t, y) && CountOk(t, dp);
    if y in t' {
      forall d, l ensures RefAt(t', d, l, y)
          <==> RefAt(t, d, l, y) || (d == dp && l == k && y == x) || (d == x && l == 1 && y == dp) {
        MadeRef(t, root, dp, k, name, x, d, l, y);
      }
      if y == x {
        NoStale(t, root, x);
        assert Refs(t', x) == {(dp, k)};
      } else if y == dp {
        assert (x, 1) !in Refs(t, dp);
        assert Refs(t', dp) == Refs(t, dp) + {(x, 1)};
      } else {
        assert Refs(t', y) == Refs(t, y);
      }
    }
  }

  lemma MadeDirs(t: Nodes, root: int, dp: int, k: int, name: Name, x: int, d: int)
    requires TreeOk(t, root) && CanMake(t, root, dp, k, x)
    ensures DirOk(MadeDir(t, dp, k, name, x), d) && HasEntry(MadeDir(t, dp, k, name, x), root, d)
  {
    var t' := MadeDir(t, dp, k, name, x);
    assert DirOk(t, d) && HasEntry(t, root, d) && CountOk(t, d) && CountOk(t, dp);
    if d == x {
      MadeRef(t, root, dp, k, name, x, x, 1, dp);
      MadeRef(t, root, dp, k, name, x, dp, k, x);
      assert RefAt(t', Parent(t', x), k, x);
    } else if Linked(t, d) {
      MadeRef(t, root, dp, k, name, x, d, 1, Parent(t, d)) by {
        assert CountOk(t, Parent(t, d));
      }
      if d != root {
        var l :| l >= 2 && RefAt(t, Parent(t, d), l, d);
        MadeRef(t, root, dp, k, name, x, Parent(t, d), l, d);
        assert RefAt(t', Parent(t', d), l, d);
      }
    }
  }

  lemma MadeReaches(t: Nodes, root: int, dp: int, k: int, name: Name, x: int, d: int)
    requires TreeOk(t, root) && CanMake(t, root, dp, k, x)
    ensures ReachesRoot(MadeDir(t, dp, k, name, x), root, d)
  {
    var t' := MadeDir(t, dp, k, name, x);
    forall e ensures SameUp(t, t', x, e) {
      assert DirOk(t, e);
      MadeRef(t, root, dp, k, name, x, e, 1, 1);
    }
    MadeRef(t, root, dp, k, name, x, d, 1, 1);
    if d == x {
      assert ReachesRoot(t, root, dp);
      StillReaches(t, t', root, x, dp);
      var n: nat :| Up(t', dp, n) == root;
      assert Up(t', x, n + 1) == root;
    } else if Linked(t, d) {
      assert ReachesRoot(t, root, d);
      StillReaches(t, t', root, x, d);
    }
  }

  lemma MadeEntry(t: Nodes, root: int, dp: int, k: int, name: Name, x: int, d: int, l: int, y: int)
    requires TreeOk(t, root) && CanMake(t, root, dp, k, x) && name != "." && name != ".."
    ensures EntryOk(MadeDir(t, dp, k, name, x), root, d, l, y)
  {
    assert EntryOk(t, root, d, l, y) && DirOk(t, y);
    if y != 0 {
      MadeRef(t, root, dp, k, name, x, d, l, y);
      MadeRef(t, root, dp, k, name, x, y, l, y);
    }
  }

  /** Making a directory keeps the tree in order. */
  lemma MadeOk(t: Nodes, root: int, dp: int, k: int, name: Name, x: int)
    requires TreeOk(t, root) && CanMake(t, root, dp, k, x) && NoName(t, dp, name)
    ensures TreeOk(MadeDir(t, dp, k, name, x), root)
  {
    var t' := MadeDir(t, dp, k, name, x);
    DotsUsed(t, root, dp);
    MadeRef(t, root, dp, k, name, x, root, 1, root) by {
      assert CountOk(t, root);
    }
    forall d ensures DirOk(t', d) && HasEntry(t', root, d) && ReachesRoot(t', root, d) {
      MadeDirs(t, root, dp, k, name, x, d);
      MadeReaches(t, root, dp, k, name, x, d);
    }
    forall d, l, y ensures EntryOk(t', root, d, l, y) {
      MadeEntry(t, root, dp, k, name, x, d, l, y);
    }
    forall d, l, m ensures NamesApart(t', d, l, m) {
      assert NamesApart(t, d, l, m);
      assert Used(t, d, l) ==> d == dp ==> t[d].entries[l].name != name;
      assert Used(t, d, m) ==> d == dp ==> t[d].entries[m].name != name;
    }
    forall d, l, e, m, y ensures OneEntry(t', d, l, e, m, y) {
      assert OneEntry(t, d, l, e, m, y) && CountOk(t, y);
      if y in t' {
        NoStale(t, root, x);
        MadeRef(t, root, dp, k, name, x, d, l, y);
        MadeRef(t, root, dp, k, name, x, e, m, y);
        assert y == x ==> (d, l) !in Refs(t, x) && (e, m) !in Refs(t, x);
      }
    }
    forall y ensures CountOk(t', y) {
      MadeCount(t, root, dp, k, name, x, y);
    }
  }

  // --- removing an entry --------------------------------------------------------------------------------

  const NOENTRY := Dirent(0, "")

  /** The entry is cleared, and the file has one link less. */
  function RemovedFile(t: Nodes, dp: int, k: nat, x: int): Nodes
    requires dp in t && x in t && k < |t[dp].entries|
  {
    t[x := t[x].(nlink := t[x].nlink - 1)][dp := t[dp].(entries := t[dp].entries[k := NOENTRY])]
  }

  /** The entry is cleared, and the directory and its parent have one link less. */
  function RemovedDir(t: Nodes, dp: int, k: nat, x: int): Nodes
    requires dp in t && x in t && k < |t[dp].entries|
  {
    t[x := t[x].(nlink := t[x].nlink - 1)][dp := t[dp].(entries := t[dp].entries[k := NOENTRY],
                                                        nlink := t[dp].nlink - 1)]
  }

  predicate EntryFor(t: Nodes, dp: int, k: int, x: int) {
    k >= 2 && x > 0 && x in t && RefAt(t, dp, k, x)
  }

  lemma RemovedFileRef(t: Nodes, root: int, dp: int, k: int, x: int, d: int, l: int, y: int)
    requires TreeOk(t, root) && EntryFor(t, dp, k, x) && t[x].kind != Dir && y != 0
    ensures var t' := RemovedFile(t, dp, k, x);
            && (RefAt(t', d, l, y) <==> RefAt(t, d, l, y) && !(d == dp && l == k))
            && (Linked(t', d) <==> Linked(t, d)) && (Linked(t, d) ==> Parent(t', d) == Parent(t, d))
  {
    assert DirOk(t, d);
  }

  lemma RemovedFileCount(t: Nodes, root: int, dp: int, k: int, x: int, y: int)
    requires TreeOk(t, root) && EntryFor(t, dp, k, x) && t[x].kind != Dir
    ensures CountOk(RemovedFile(t, dp, k, x), y)
  {
    var t' := RemovedFile(t, dp, k, x);
    assert CountOk(t, y);
    if y in t {
      forall d, l ensures RefAt(t', d, l, y) <==> RefAt(t, d, l, y) && !(d == dp && l == k) {
        RemovedFileRef(t, root, dp, k, x, d, l, y);
      }
      if y == x {
        assert (dp, k) in Refs(t, x);
        assert Refs(t', x) == Refs(t, x) - {(dp, k)};
      } else {
        assert Refs(t', y) == Refs(t, y);
      }
    }
  }

  lemma RemovedFileDirs(t: Nodes, root: int, dp: int, k: int, x: int, d: int)
    requires TreeOk(t, root) && EntryFor(t, dp, k, x) && t[x].kind != Dir
    ensures DirOk(RemovedFile(t, dp, k, x), d) && HasEntry(RemovedFile(t, dp, k, x), root, d)
  {
    var t' := RemovedFile(t, dp, k, x);
    assert DirOk(t, d) && HasEntry(t, root, d) && CountOk(t, d);
    if Linked(t, d) {
      RemovedFileRef(t, root, dp, k, x, d, 1, d);
      RemovedFileRef(t, root, dp, k, x, Parent(t, d), 1, d);
      if d != root {
        var l :| l >= 2 && RefAt(t, Parent(t, d), l, d);
        RemovedFileRef(t, root, dp, k, x, Parent(t, d), l, d);
        assert RefAt(t', Parent(t', d), l, d);
      }
    }
  }

  lemma RemovedFileReaches(t: Nodes, root: int, dp: int, k: int, x: int, d: int)
    requires TreeOk(t, root) && EntryFor(t, dp, k, x) && t[x].kind != Dir
    ensures ReachesRoot(RemovedFile(t, dp, k, x), root, d)
  {
    var t' := RemovedFile(t, dp, k, x);
    forall e ensures SameUp(t, t', x, e) {
      assert DirOk(t, e);
      RemovedFileRef(t, root, dp, k, x, e, 1, 1);
    }
    RemovedFileRef(t, root, dp, k, x, d, 1, 1);
    if Linked(t, d) {
      assert ReachesRoot(t, root, d);
      StillReaches(t, t', root, x, d);
    }
  }

  /** Removing a file's entry keeps the tree in order. */
  lemma RemovedFileOk(t: Nodes, root: int, dp: int, k: int, x: int)
    requires TreeOk(t, root) && EntryFor(t, dp, k, x) && t[x].kind != Dir
    ensures TreeOk(RemovedFile(t, dp, k, x), root)
  {
    var t' := RemovedFile(t, dp, k, x);
    assert CountOk(t, root);
    RemovedFileRef(t, root, dp, k, x, root, 1, root);
    forall d ensures DirOk(t', d) && HasEntry(t', root, d) && ReachesRoot(t', root, d) {
      RemovedFileDirs(t, root, dp, k, x, d);
      RemovedFileReaches(t, root, dp, k, x, d);
    }
    forall d, l, y ensures EntryOk(t', root, d, l, y) {
      assert EntryOk(t, root, d, l, y) && DirOk(t, y);
      if y != 0 {
        RemovedFileRef(t, root, dp, k, x, d, l, y);
        RemovedFileRef(t, root, dp, k, x, y, l, y);
      }
    }
    forall d, l, m ensures NamesApart(t', d, l, m) {
      assert NamesApart(t, d, l, m);
    }
    forall d, l, e, m, y ensures OneEntry(t', d, l, e, m, y) {
      assert OneEntry(t, d, l, e, m, y) && CountOk(t, y);
      if y in t {
        RemovedFileRef(t, root, dp, k, x, d, l, y);
        RemovedFileRef(t, root, dp, k, x, e, m, y);
      }
    }
    forall y ensures CountOk(t', y) {
      RemovedFileCount(t, root, dp, k, x, y);
    }
  }

  predicate CanRemove(t: Nodes, root: int, dp: int, k: int, x: int) {
    EntryFor(t, dp, k, x) && t[x].kind == Dir
  }

  /** No linked directory has an empty directory as its parent. */
  lemma NoChild(t: Nodes, root: int, x: int, d: int)
    requires TreeOk(t, root) && Empty(t, x) && x != root && Linked(t, d)
    ensures Parent(t, d) != x
  {
    assert HasEntry(t, root, d) && CountOk(t, d);
  }

  /** An empty directory is referred to by its one entry only, so its link count is 1. */
  lemma OnlyEntry(t: Nodes, root: int, dp: int, k: int, x: int)
    requires TreeOk(t, root) && CanRemove(t, root, dp, k, x) && Empty(t, x)
    ensures Refs(t, x) == {(dp, k)} && t[x].nlink == 1 && x != root && Parent(t, x) == dp && x != dp && Linked(t, x)
  {
    assert EntryOk(t, root, dp, k, x) && CountOk(t, x);
    forall d, l | RefAt(t, d, l, x) ensures d == dp && l == k {
      assert OneEntry(t, d, l, dp, k, x) && DirOk(t, d);
      NoChild(t, root, x, d);
    }
    assert Refs(t, x) == {(dp, k)};
    NoChild(t, root, x, x);
  }

  lemma RemovedDirRef(t: Nodes, root: int, dp: int, k: int, x: int, d: int, l: int, y: int)
    requires TreeOk(t, root) && CanRemove(t, root, dp, k, x) && Empty(t, x) && y != 0
    ensures var t' := RemovedDir(t, dp, k, x);
            && (Linked(t', d) <==> Linked(t, d) && d != x)
            && (RefAt(t', d, l, y) <==> RefAt(t, d, l, y) && !(d == dp && l == k) && d != x)
            && (Linked(t', d) ==> Parent(t', d) == Parent(t, d))
  {
    OnlyEntry(t, root, dp, k, x);
    assert DirOk(t, d);
    StaysLinked(t, root, dp, k, x);
  }

  /** The parent of a directory that is removed keeps a link of its own. */
  lemma StaysLinked(t: Nodes, root: int, dp: int, k: int, x: int)
    requires TreeOk(t, root) && CanRemove(t, root, dp, k, x) && Empty(t, x)
    ensures t[dp].nlink >= 2
  {
    OnlyEntry(t, root, dp, k, x);
    assert CountOk(t, dp) && DirOk(t, x) && DirOk(t, dp) && HasEntry(t, root, dp);
    assert RefAt(t, x, 1, dp);
    var other: (int, int);
    if dp == root {
      other := (root, 1);
    } else {
      var l :| l >= 2 && RefAt(t, Parent(t, dp), l, dp);
      other := (Parent(t, dp), l);
    }
    assert {(x, 1), other} <= Refs(t, dp);
    assert Refs(t, dp) == {(x, 1), other} + (Refs(t, dp) - {(x, 1), other});
  }

  lemma RemovedDirCount(t: Nodes, root: int, dp: int, k: int, x: int, y: int)
    requires TreeOk(t, root) && CanRemove(t, root, dp, k, x) && Empty(t, x)
    ensures CountOk(RemovedDir(t, dp, k, x), y)
  {
    var t' := RemovedDir(t, dp, k, x);
    OnlyEntry(t, root, dp, k, x);
    assert CountOk(t, y) && DirOk(t, x);
    if y in t {
      forall d, l ensures RefAt(t', d, l, y) <==> RefAt(t, d, l, y) && !(d == dp && l == k) && d != x {
        RemovedDirRef(t, root, dp, k, x, d, l, y);
      }
      if y == x {
        forall d, l ensures !RefAt(t', d, l, x) {
          assert RefAt(t, d, l, x) ==> (d, l) in Refs(t, x);
        }
        assert Refs(t', x) == {};
      } else if y == dp {
        assert (x, 1) in Refs(t, dp);
        assert Refs(t', dp) == Refs(t, dp) - {(x, 1)};
      } else {
        forall d, l ensures RefAt(t', d, l, y) <==> RefAt(t, d, l, y) {
          RemovedDirOther(t, root, dp, k, x, d, l, y);
        }
        assert Refs(t', y) == Refs(t, y);
      }
    }
  }

  lemma RemovedDirOther(t: Nodes, root: int, dp: int, k: int, x: int, d: int, l: int, y: int)
    requires TreeOk(t, root) && CanRemove(t, root, dp, k, x) && Empty(t, x) && y != 0 && y != x && y != dp
    ensures RefAt(RemovedDir(t, dp, k, x), d, l, y) <==> RefAt(t, d, l, y)
  {
    OnlyEntry(t, root, dp, k, x);
    RemovedDirRef(t, root, dp, k, x, d, l, y);
  }

  lemma RemovedDirDirs(t: Nodes, root: int, dp: int, k: int, x: int, d: int)
    requires TreeOk(t, root) && CanRemove(t, root, dp, k, x) && Empty(t, x)
    ensures DirOk(RemovedDir(t, dp, k, x), d) && HasEntry(RemovedDir(t, dp, k, x), root, d)
  {
    var t' := RemovedDir(t, dp, k, x);
    OnlyEntry(t, root, dp, k, x);
    assert DirOk(t, d) && HasEntry(t, root, d) && CountOk(t, d);
    if Linked(t, d) && d != x {
      NoChild(t, root, x, d);
      RemovedDirRef(t, root, dp, k, x, d, 1, d);
      RemovedDirRef(t, root, dp, k, x, Parent(t, d), 1, d);
      if d != root {
        var l :| l >= 2 && RefAt(t, Parent(t, d), l, d);
        RemovedDirRef(t, root, dp, k, x, Parent(t, d), l, d);
        assert RefAt(t', Parent(t', d), l, d);
      }
    } else {
      RemovedDirRef(t, root, dp, k, x, d, 1, 1);
    }
  }

  lemma RemovedDirReaches(t: Nodes, root: int, dp: int, k: int, x: int, d: int)
    requires TreeOk(t, root) && CanRemove(t, root, dp, k, x) && Empty(t, x)
    ensures ReachesRoot(RemovedDir(t, dp, k, x), root, d)
  {
    var t' := RemovedDir(t, dp, k, x);
    OnlyEntry(t, root, dp, k, x);
    forall e ensures SameUp(t, t', x, e) {
      assert DirOk(t, e);
      RemovedDirRef(t, root, dp, k, x, e, 1, 1);
      if Linked(t, e) {
        NoChild(t, root, x, e);
      }
    }
    RemovedDirRef(t, root, dp, k, x, d, 1, 1);
    if Linked(t, d) && d != x {
      assert ReachesRoot(t, root, d);
      StillReaches(t, t', root, x, d);
    }
  }

  lemma RemovedDirEntry(t: Nodes, root: int, dp: int, k: int, x: int, d: int, l: int, y: int)
    requires TreeOk(t, root) && CanRemove(t, root, dp, k, x) && Empty(t, x)
    ensures EntryOk(RemovedDir(t, dp, k, x), root, d, l, y)
  {
    assert EntryOk(t, root, d, l, y) && DirOk(t, y) && OneEntry(t, d, l, dp, k, x);
    if y != 0 {
      RemovedDirRef(t, root, dp, k, x, d, l, y);
      RemovedDirRef(t, root, dp, k, x, y, l, y);
    }
  }

  /** Removing an empty directory keeps the tree in order. */
  lemma RemovedDirOk(t: Nodes, root: int, dp: int, k: int, x: int)
    requires TreeOk(t, root) && CanRemove(t, root, dp, k, x) && Empty(t, x)
    ensures TreeOk(RemovedDir(t, dp, k, x), root)
  {
    var t' := RemovedDir(t, dp, k, x);
    OnlyEntry(t, root, dp, k, x);
    RemovedDirRef(t, root, dp, k, x, root, 1, 1);
    forall d ensures DirOk(t', d) && HasEntry(t', root, d) && ReachesRoot(t', root, d) {
      RemovedDirDirs(t, root, dp, k, x, d);
      RemovedDirReaches(t, root, dp, k, x, d);
    }
    forall d, l, y ensures EntryOk(t', root, d, l, y) {
      RemovedDirEntry(t, root, dp, k, x, d, l, y);
    }
    forall d, l, m ensures NamesApart(t', d, l, m) {
      assert NamesApart(t, d, l, m);
      RemovedDirRef(t, root, dp, k, x, d, 1, 1);
    }
    forall d, l, e, m, y ensures OneEntry(t', d, l, e, m, y) {
      assert OneEntry(t, d, l, e, m, y) && CountOk(t, y);
      if y in t {
        RemovedDirRef(t, root, dp, k, x, d, l, y);
        RemovedDirRef(t, root, dp, k, x, e, m, y);
      }
    }
    forall y ensures CountOk(t', y) {
      RemovedDirCount(t, root, dp, k, x, y);
    }
  }

  // --- freeing an inode -------------------------------------------------------------------------------------

  lemma ReclaimedReaches(t: Nodes, root: int, x: int, d: int)
    requires TreeOk(t, root) && x in t && t[x].nlink == 0
    ensures ReachesRoot(t - {x}, root, d)
  {
    var t' := t - {x};
    forall e ensures SameUp(t, t', x, e) {
      assert DirOk(t, e);
    }
    if Linked(t', d) {
      assert ReachesRoot(t, root, d);
      StillReaches(t, t', root, x, d);
    }
  }

  /** An inode without links can be freed. */
  lemma ReclaimedOk(t: Nodes, root: int, x: int)
    requires TreeOk(t, root) && x in t && t[x].nlink == 0
    ensures TreeOk(t - {x}, root)
  {
    var t' := t - {x};
    assert CountOk(t, x);
    forall d, k ensures !RefAt(t, d, k, x) {
      assert RefAt(t, d, k, x) ==> (d, k) in Refs(t, x);
    }
    forall d, k, y ensures RefAt(t', d, k, y) <==> RefAt(t, d, k, y) {
    }
    forall d ensures DirOk(t', d) && HasEntry(t', root, d) && Parent(t', d) == (if d == x then 0 else Parent(t, d)) {
      assert DirOk(t, d) && HasEntry(t, root, d);
      if Linked(t, d) && d != root {
        var l :| l >= 2 && RefAt(t, Parent(t, d), l, d);
        assert RefAt(t', Parent(t', d), l, d);
      }
    }
    forall d ensures ReachesRoot(t', root, d) {
      ReclaimedReaches(t, root, x, d);
    }
    forall d, l, y ensures EntryOk(t', root, d, l, y) {
      assert EntryOk(t, root, d, l, y);
    }
    forall d, l, m ensures NamesApart(t', d, l, m) {
      assert NamesApart(t, d, l, m);
    }
    forall d, l, e, m, y ensures OneEntry(t', d, l, e, m, y) {
      assert OneEntry(t, d, l, e, m, y);
    }
    forall y ensures CountOk(t', y) {
      assert CountOk(t, y);
      assert Refs(t', y) == Refs(t, y);
    }
  }
}
