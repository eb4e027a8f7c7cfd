/** Many address spaces at once: any sequence of creating, forking, growing, shrinking and freeing
    them shares the free list without losing or doubling a page. */
module VmWorld {
  import opened Sv39
  import opened PageSpace
  import opened Vm

  /** The space of a process with `n` pages of user memory, and the page of its trapframe. */
  datatype Owner = Owner(sp: Space, n: nat, trapframe: int)

  /** The pages of a process that are not page-table pages. */
  function UserFrames(o: Owner): set<int> {
    PageFrames(o.sp.leaf, 0, o.n) + {o.trapframe}
  }

  function Owned(o: Owner): set<int> {
    Frames(o.sp) + UserFrames(o)
  }

  /** The space is one of a process, and its trapframe is a page of its own, mapped as such. */
  ghost predicate OwnerOk(m: Mem, o: Owner) {
    && ProcSpace(m, o.sp, o.n)
    && o.trapframe in m.pages && o.trapframe !in PageFrames(o.sp.leaf, 0, o.n)
    && TRAPFRAME / PGSIZE in o.sp.leaf && o.sp.leaf[TRAPFRAME / PGSIZE].frame == o.trapframe
  }

  function OwnedBy(os: map<int, Owner>, p: int): set<int> {
    if p in os then Owned(os[p]) else {}
  }

  /** All that the spaces own. */
  function AllOwned(os: map<int, Owner>): set<int> {
    set p, f | p in os && f in Owned(os[p]) :: f
  }

  predicate ApartAt(os: map<int, Owner>, p: int, q: int) {
    p in os && q in os && p != q ==> Owned(os[p]) !! Owned(os[q])
  }

  ghost predicate SpaceAt(m: Mem, os: map<int, Owner>, p: int) {
    p in os ==> OwnerOk(m, os[p])
  }

  /** Every page of the free list `m0` is free or has one owner; everything else is as in `m0`. */
  ghost predicate World(m0: Mem, m: Mem, os: map<int, Owner>) {
    && MemOk(m)
    && (forall p :: SpaceAt(m, os, p))
    && (forall p, q :: ApartAt(os, p, q))
    && FreeSet(m) + AllOwned(os) == FreeSet(m0)
    && m.pages - AllOwned(os) == m0.pages && m.tables - AllOwned(os) == m0.tables
  }

  // --- what an operation on one space does to memory ---------------------------------------------------

  /** The pages `a` have been traded for the pages `b` of the free list; nothing else has changed. */
  ghost predicate Trade(m: Mem, a: set<int>, m': Mem, b: set<int>) {
    && MemOk(m') && FreeSet(m') + b == FreeSet(m) + a
    && m'.pages - b == m.pages - a && m'.tables - b == m.tables - a
  }

  lemma SameTables(x: map<int, seq<Pte>>, y: map<int, seq<Pte>>)
    requires forall f :: (f in x <==> f in y) && (f in x ==> y[f] == x[f])
    ensures x == y
  {
    assert forall f: int :: f in x.Keys <==> f in y.Keys;
    assert forall f: int :: f in x ==> x[f] == y[f];
  }

  lemma TablesWithout(x: map<int, seq<Pte>>, a: set<int>, b: set<int>)
    requires forall f :: f in x ==> (f in a <==> f in b)
    ensures x - a == x - b
  {
    SameTables(x - a, x - b);
  }

  lemma PagesWithout(x: map<int, seq<int>>, a: set<int>, b: set<int>)
    requires forall f :: f in x ==> (f in a <==> f in b)
    ensures x - a == x - b
  {
    assert forall f: int :: f in (x - a).Keys <==> f in (x - b).Keys;
    assert forall f: int :: f in x - a ==> (x - a)[f] == (x - b)[f];
  }

  lemma SameOwners(x: map<int, Owner>, y: map<int, Owner>)
    requires forall p :: (p in x <==> p in y) && (p in x ==> y[p] == x[p])
    ensures x == y
  {
    assert forall p: int :: p in x.Keys <==> p in y.Keys;
    assert forall p: int :: p in x ==> x[p] == y[p];
  }

  /** What a process owns is allocated: its tables are tables and its pages are pages. */
  lemma OwnedAllocated(m: Mem, o: Owner)
    requires OwnerOk(m, o)
    ensures Frames(o.sp) <= m.tables.Keys && UserFrames(o) <= m.pages.Keys
    ensures Owned(o) !! FreeSet(m)
    ensures m.pages - Owned(o) == m.pages - UserFrames(o) && m.tables - Owned(o) == m.tables - Frames(o.sp)
  {
    FramesAreTables(m.tables, o.sp);
    forall f | f in PageFrames(o.sp.leaf, 0, o.n) ensures f in m.pages {
      var v :| v in o.sp.leaf && 0 <= v < o.n && f == o.sp.leaf[v].frame;
      assert PrivateAt(m.pages, o.sp.leaf, 0, o.n, v, v);
    }
    forall f | f in Owned(o) ensures f !in FreeSet(m) {
      assert f in m.tables || f in m.pages;
    }
    PagesWithout(m.pages, Owned(o), UserFrames(o));
    TablesWithout(m.tables, Owned(o), Frames(o.sp));
  }

  lemma TradeTrans(m: Mem, a: set<int>, m1: Mem, b: set<int>, m2: Mem, c: set<int>)
    requires Trade(m, a, m1, b) && Trade(m1, b, m2, c)
    ensures Trade(m, a, m2, c)
  {
  }

  /** The trapframe stays where it is when the space changes size. */
  lemma TrapframeStays(m: Mem, o: Owner, m': Mem, o': Owner)
    requires OwnerOk(m, o) && ProcSpace(m', o'.sp, o'.n) && o'.trapframe == o.trapframe
    requires m'.pages - PageFrames(o'.sp.leaf, 0, o'.n) == m.pages - PageFrames(o.sp.leaf, 0, o.n)
    requires TRAPFRAME / PGSIZE in o'.sp.leaf && o'.sp.leaf[TRAPFRAME / PGSIZE] == o.sp.leaf[TRAPFRAME / PGSIZE]
    ensures OwnerOk(m', o') && m'.pages - UserFrames(o') == m.pages - UserFrames(o)
  {
    var a, b := PageFrames(o.sp.leaf, 0, o.n), PageFrames(o'.sp.leaf, 0, o'.n);
    assert o.trapframe in m.pages - a;
    assert m'.pages - (b + {o.trapframe}) == (m'.pages - b) - {o.trapframe};
    assert m.pages - (a + {o.trapframe}) == (m.pages - a) - {o.trapframe};
  }

  lemma BalancedTrades(m: Mem, o: Owner, m': Mem, o': Owner)
    requires OwnerOk(m, o) && ProcSpace(m', o'.sp, o'.n) && Balanced(m, o.sp, o.n, m', o'.sp, o'.n)
    requires o'.trapframe == o.trapframe
    requires TRAPFRAME / PGSIZE in o'.sp.leaf && o'.sp.leaf[TRAPFRAME / PGSIZE] == o.sp.leaf[TRAPFRAME / PGSIZE]
    ensures OwnerOk(m', o') && Trade(m, Owned(o), m', Owned(o'))
  {
    TrapframeStays(m, o, m', o');
    OwnedAllocated(m, o);
    OwnedAllocated(m', o');
    SameTables(m'.tables - Frames(o'.sp), m.tables - Frames(o.sp));
  }

  /** `kfree` of the trapframe page leaves the space as it is. */
  lemma WithoutTrapframe(m: Mem, o: Owner)
    requires OwnerOk(m, o)
    ensures ProcSpace(Freed(m, o.trapframe), o.sp, o.n)
    ensures Freed(m, o.trapframe).tables == m.tables && FreeSet(Freed(m, o.trapframe)) == FreeSet(m) + {o.trapframe}
  {
    var m' := Freed(m, o.trapframe);
    FreedOk(m, o.trapframe);
    forall v, w ensures PrivateAt(m'.pages, o.sp.leaf, 0, o.n, v, w) {
      assert PrivateAt(m.pages, o.sp.leaf, 0, o.n, v, w);
      assert v in o.sp.leaf && 0 <= v < o.n ==> o.sp.leaf[v].frame in PageFrames(o.sp.leaf, 0, o.n);
    }
  }

  lemma FreedTrades(m: Mem, o: Owner, m': Mem)
    requires OwnerOk(m, o) && SpaceFreed(Freed(m, o.trapframe), o.sp, o.n, m')
    ensures Trade(m, Owned(o), m', {})
  {
    WithoutTrapframe(m, o);
    OwnedAllocated(m, o);
    assert m'.tables - {} == m'.tables && m'.pages - {} == m'.pages;
    SameTables(m'.tables, m.tables - Frames(o.sp));
    assert (m.pages - {o.trapframe}) - PageFrames(o.sp.leaf, 0, o.n) == m.pages - UserFrames(o);
  }

  /** A page of the free list for the trapframe, and an empty space. */
  lemma CreatedTrades(m: Mem, m': Mem, o: Owner)
    requires MemOk(m) && m.free != [] && o.n == 0 && o.trapframe == m.free[0]
    requires Created(GivenPage(m, Filled(5)), m', o.sp) && ProcSpace(m', o.sp, 0)
    requires TRAPFRAME / PGSIZE in o.sp.leaf && o.sp.leaf[TRAPFRAME / PGSIZE].frame == o.trapframe
    ensures OwnerOk(m', o) && Trade(m, {}, m', Owned(o))
  {
    GivenOk(m, Filled(5));
    assert PageFrames(o.sp.leaf, 0, 0) == {};
    OwnedAllocated(m', o);
    CreatedRest(m, m', o);
  }

  lemma CreatedRest(m: Mem, m': Mem, o: Owner)
    requires MemOk(m) && m.free != [] && o.n == 0 && o.trapframe == m.free[0] && PageFrames(o.sp.leaf, 0, 0) == {}
    requires Created(GivenPage(m, Filled(5)), m', o.sp) && o.trapframe !in m.pages
    ensures m'.pages - UserFrames(o) == m.pages - {} && m'.tables - Frames(o.sp) == m.tables - {}
  {
    AddRemove(m.pages, o.trapframe, Filled(5));
    assert m.pages - {} == m.pages && m.tables - {} == m.tables;
    SameTables(m'.tables - Frames(o.sp), m.tables);
  }

  /** The page that was taken goes back. */
  lemma GivenTrades(m: Mem, m': Mem)
    requires MemOk(m) && m.free != [] && Restored(GivenPage(m, Filled(5)), m')
    ensures m.free[0] in m'.pages && Trade(m, {}, Freed(m', m.free[0]), {})
  {
    GivenOk(m, Filled(5));
    FreedOk(m', m.free[0]);
    AddRemove(m.pages, m.free[0], Filled(5));
    assert m.pages - {} == m.pages && m.tables - {} == m.tables;
    var m2 := Freed(m', m.free[0]);
    assert m2.pages - {} == m2.pages && m2.tables - {} == m2.tables;
  }

  lemma SameTrades(m: Mem)
    requires MemOk(m)
    ensures Trade(m, {}, m, {})
  {
  }

  // --- one space among others ---------------------------------------------------------------------------

  /** Only the space of `p` differs. */
  ghost predicate OthersKept(os: map<int, Owner>, os': map<int, Owner>, p: int) {
    forall q :: q != p ==> (q in os <==> q in os') && (q in os ==> os'[q] == os[q])
  }

  lemma OwnedSplit(os: map<int, Owner>, p: int)
    ensures AllOwned(os) == AllOwned(os - {p}) + OwnedBy(os, p)
  {
    forall f | f in AllOwned(os) ensures f in AllOwned(os - {p}) + OwnedBy(os, p) {
      var q :| q in os && f in Owned(os[q]);
      if q != p {
        assert q in os - {p} && f in Owned((os - {p})[q]);
      }
    }
    forall f | f in AllOwned(os - {p}) + OwnedBy(os, p) ensures f in AllOwned(os) {
      if f in AllOwned(os - {p}) {
        var q :| q in os - {p} && f in Owned((os - {p})[q]);
        assert q in os && f in Owned(os[q]);
      } else {
        assert p in os && f in Owned(os[p]);
      }
    }
  }

  /** The pages and tables of a process are as they were. */
  ghost predicate Undisturbed(m: Mem, m': Mem, o: Owner) {
    forall f :: f in Owned(o) ==>
      && (f in m.pages ==> f in m'.pages && m'.pages[f] == m.pages[f])
      && (f in m.tables ==> f in m'.tables && m'.tables[f] == m.tables[f])
  }

  /** What another process owns is neither in `a` nor free, so it is not in `b` either. */
  lemma OtherOwned(m: Mem, o: Owner, a: set<int>, m': Mem, b: set<int>)
    requires OwnerOk(m, o) && Owned(o) !! a && Trade(m, a, m', b)
    ensures Owned(o) !! b && Undisturbed(m, m', o)
  {
    OwnedAllocated(m, o);
    forall f | f in Owned(o)
      ensures f in m.pages ==> f in m'.pages && m'.pages[f] == m.pages[f]
      ensures f in m.tables ==> f in m'.tables && m'.tables[f] == m.tables[f]
    {
      assert f in m.pages ==> f in m.pages - a;
      assert f in m.tables ==> f in m.tables - a;
    }
  }

  lemma OtherSpace(m: Mem, o: Owner, a: set<int>, m': Mem, b: set<int>)
    requires OwnerOk(m, o) && Owned(o) !! a && Trade(m, a, m', b)
    ensures OwnerOk(m', o)
  {
    OtherOwned(m, o, a, m', b);
    OwnedAllocated(m, o);
    forall f | f in Frames(o.sp) ensures SameTable(m.tables, m'.tables, f) {
    }
    RepElsewhere(m.tables, m'.tables, o.sp);
    forall v, w ensures PrivateAt(m'.pages, o.sp.leaf, 0, o.n, v, w) {
      assert PrivateAt(m.pages, o.sp.leaf, 0, o.n, v, w);
      assert v in o.sp.leaf && 0 <= v < o.n ==> o.sp.leaf[v].frame in PageFrames(o.sp.leaf, 0, o.n);
    }
  }

  /** The free list and the rest of memory after the trade. */
  lemma TradeSums(m0: Mem, m: Mem, m': Mem, rest: set<int>, a: set<int>, b: set<int>)
    requires FreeSet(m) + (rest + a) == FreeSet(m0) && m.pages - (rest + a) == m0.pages
             && m.tables - (rest + a) == m0.tables
    requires Trade(m, a, m', b)
    ensures FreeSet(m') + (rest + b) == FreeSet(m0)
    ensures m'.pages - (rest + b) == m0.pages && m'.tables - (rest + b) == m0.tables
  {
    assert m'.pages - (rest + b) == (m'.pages - b) - rest && m.pages - (rest + a) == (m.pages - a) - rest;
    assert m'.tables - (rest + b) == (m'.tables - b) - rest && m.tables - (rest + a) == (m.tables - a) - rest;
  }

  /** An operation on one space keeps the whole in order. */
  lemma WorldStep(m0: Mem, m: Mem, os: map<int, Owner>, p: int, m': Mem, os': map<int, Owner>)
    requires World(m0, m, os) && OthersKept(os, os', p)
    requires Trade(m, OwnedBy(os, p), m', OwnedBy(os', p)) && SpaceAt(m', os', p)
    ensures World(m0, m', os')
  {
    var a, b := OwnedBy(os, p), OwnedBy(os', p);
    OwnedSplit(os, p);
    OwnedSplit(os', p);
    SameOwners(os - {p}, os' - {p});
    TradeSums(m0, m, m', AllOwned(os - {p}), a, b);
    forall q ensures SpaceAt(m', os', q) {
      assert SpaceAt(m, os, q) && ApartAt(os, q, p);
      if q in os && q != p {
        OtherSpace(m, os[q], a, m', b);
      }
    }
    forall q, r ensures ApartAt(os', q, r) {
      assert ApartAt(os, q, r) && ApartAt(os, q, p) && ApartAt(os, r, p) && SpaceAt(m, os, q) && SpaceAt(m, os, r);
      if q in os && q != p {
        OtherOwned(m, os[q], a, m', b);
      }
      if r in os && r != p {
        OtherOwned(m, os[r], a, m', b);
      }
    }
  }

  lemma WorldStart(m: Mem)
    requires MemOk(m)
    ensures World(m, m, map[])
  {
    assert AllOwned(map[]) == {};
    assert m.pages - {} == m.pages && m.tables - {} == m.tables;
  }

  lemma WorldEnds(m0: Mem, m: Mem, os: map<int, Owner>)
    requires World(m0, m, os) && os == map[]
    ensures Restored(m0, m)
  {
    assert AllOwned(os) == {};
    assert m.pages - {} == m.pages && m.tables - {} == m.tables;
  }

  /** No space can grow as far as the trapframe: there is not enough memory. */
  lemma WorldFew(m0: Mem, m: Mem, os: map<int, Owner>, p: int)
    requires MemOk(m0) && FewPages(m0, 0) && World(m0, m, os) && p in os
    ensures FewPages(m, os[p].n)
  {
    assert SpaceAt(m, os, p);
    forall f | f in PageFrames(os[p].sp.leaf, 0, os[p].n) ensures f in AllOwned(os) {
      assert f in Owned(os[p]);
    }
    FewLeft(m0, m, os[p].sp, os[p].n);
  }

  // --- fork -----------------------------------------------------------------------------------------------

  /** Each page of the child has the bytes and permissions of the parent's page. */
  predicate CopiedAt(m: Mem, from: Space, to: Space, n: nat, v: int) {
    0 <= v < n ==>
      && v in from.leaf && v in to.leaf && to.leaf[v].flags == from.leaf[v].flags
      && from.leaf[v].frame in m.pages && to.leaf[v].frame in m.pages
      && m.pages[to.leaf[v].frame] == m.pages[from.leaf[v].frame] && to.leaf[v].frame != from.leaf[v].frame
  }

  ghost predicate Copied(m: Mem, from: Space, to: Space, n: nat) {
    forall v :: CopiedAt(m, from, to, n, v)
  }

  /** The parent's space when the child's has been made. */
  lemma ReadyToCopy(m: Mem, from: Owner, m1: Mem, to: Owner)
    requires OwnerOk(m, from) && OwnerOk(m1, to) && to.n == 0 && Trade(m, {}, m1, Owned(to))
    ensures OwnerOk(m1, from) && Frames(from.sp) !! Frames(to.sp)
    ensures Unmapped(to.sp.leaf, 0, from.n) && AllMapped(from.sp.leaf, 0, from.n)
  {
    OtherSpace(m, from, {}, m1, Owned(to));
    OtherOwned(m, from, {}, m1, Owned(to));
    forall v | 0 <= v < from.n ensures v !in to.sp.leaf && v in from.sp.leaf {
      assert !IsUserPage(v, 0) && IsUserPage(v, from.n);
    }
  }

  lemma CopyCopies(m1: Mem, sp1: Space, m: Mem, sp: Space, from: Space, n: nat)
    requires MemOk(m1) && Rep(m1.tables, sp1) && Built(m1, sp1, m, sp, 0, n, CopyOf(from.leaf, m1.pages))
    ensures Copied(m, from, sp, n)
  {
    forall v ensures CopiedAt(m, from, sp, n, v) {
      if 0 <= v < n {
        CopyIsFaithful(m1, sp1, m, sp, from, n, v);
      }
    }
  }

  /** The child's space, once it has its pages. */
  lemma ChildTrades(m1: Mem, o1: Owner, m: Mem, o: Owner, src: Source)
    requires OwnerOk(m1, o1) && o1.n == 0 && Built(m1, o1.sp, m, o.sp, 0, o.n, src)
    requires o.n * PGSIZE <= TRAPFRAME && o.trapframe == o1.trapframe
    ensures OwnerOk(m, o) && Trade(m1, Owned(o1), m, Owned(o))
  {
    GrownSpace(m1, o1.sp, m, o.sp, 0, o.n, o.n, src);
    GrownBalance(m1, o1.sp, m, o.sp, 0, o.n, o.n, src);
    assert TRAPFRAME / PGSIZE in Dropped(o.sp.leaf, 0, o.n);
    BalancedTrades(m1, o1, m, o);
  }

  lemma UndoneTrades(m1: Mem, o1: Owner, m: Mem, o: Owner)
    requires OwnerOk(m1, o1) && Undone(m1, o1.sp, m, o.sp) && o.n == o1.n && o.trapframe == o1.trapframe
    ensures OwnerOk(m, o) && Trade(m1, Owned(o1), m, Owned(o))
  {
    UndoneSpace(m1, o1.sp, m, o.sp, o1.n);
    BalancedTrades(m1, o1, m, o);
  }

  /** The memory that `allocproc` takes: a trapframe page and an empty page table, or nothing. */
  method AllocProc(vm: Machine, trampoline: int) returns (root: int, trapframe: int, ghost sp: Space)
    requires MemOk(vm.m)
    modifies vm
    ensures root == -1 ==> Trade(old(vm.m), {}, vm.m, {})
    ensures root != -1 ==> sp.root == root && OwnerOk(vm.m, Owner(sp, 0, trapframe))
    ensures root != -1 ==> Trade(old(vm.m), {}, vm.m, Owned(Owner(sp, 0, trapframe)))
  {
    trapframe := vm.KAlloc();
    if trapframe == -1 {
      SameTrades(vm.m);
      return -1, trapframe, EmptySpace(0);
    }
    root, sp := vm.ProcPagetable(trampoline, trapframe);
    if root == -1 {
      GivenTrades(old(vm.m), vm.m);
      vm.KFree(trapframe);
      return;
    }
    CreatedTrades(old(vm.m), vm.m, Owner(sp, 0, trapframe));
  }

  /** The memory that `freeproc` gives back.  Returns false where the code panics. */
  method FreeProc(vm: Machine, root: int, sz: nat, trapframe: int, ghost o: Owner) returns (ok: bool)
    requires OwnerOk(vm.m, o) && o.sp.root == root && o.n == PageCount(sz) && o.trapframe == trapframe
    modifies vm
    ensures ok && Trade(old(vm.m), Owned(o), vm.m, {})
  {
    WithoutTrapframe(vm.m, o);
    vm.KFree(trapframe);
    ok := vm.ProcFreePagetable(root, sz, o.sp);
    FreedTrades(old(vm.m), o, vm.m);
  }

  /** The part of `fork` that makes the child's address space, or leaves memory as it was. */
  method ForkSpace(vm: Machine, trampoline: int, root: int, sz: nat, ghost from: Owner)
    returns (child: int, trapframe: int, ghost sp: Space)
    requires OwnerOk(vm.m, from) && from.sp.root == root && from.n == PageCount(sz)
    modifies vm
    ensures child == -1 ==> Trade(old(vm.m), {}, vm.m, {})
    ensures child != -1 ==> sp.root == child && OwnerOk(vm.m, Owner(sp, from.n, trapframe))
    ensures child != -1 ==> Trade(old(vm.m), {}, vm.m, Owned(Owner(sp, from.n, trapframe)))
    ensures child != -1 ==> Copied(vm.m, from.sp, sp, from.n)
  {
    child, trapframe, sp := AllocProc(vm, trampoline);
    if child != -1 {
      ReadyToCopy(old(vm.m), from, vm.m, Owner(sp, 0, trapframe));
      var ok, sp2 := CopyInto(vm, root, sz, from, child, trapframe, old(vm.m), sp);
      sp := sp2;
      child := if ok then child else -1;
    }
  }

  /** `uvmcopy` in `fork`; if it fails the new process is freed. */
  method CopyInto(vm: Machine, root: int, sz: nat, ghost from: Owner, child: int, trapframe: int,
                  ghost m0: Mem, ghost sp1: Space)
    returns (ok: bool, ghost sp: Space)
    requires OwnerOk(vm.m, from) && from.sp.root == root && from.n == PageCount(sz)
    requires OwnerOk(vm.m, Owner(sp1, 0, trapframe)) && sp1.root == child && Frames(from.sp) !! Frames(sp1)
    requires Unmapped(sp1.leaf, 0, from.n) && AllMapped(from.sp.leaf, 0, from.n)
    requires Trade(m0, {}, vm.m, Owned(Owner(sp1, 0, trapframe)))
    modifies vm
    ensures !ok ==> Trade(m0, {}, vm.m, {})
    ensures ok ==> sp.root == child && OwnerOk(vm.m, Owner(sp, from.n, trapframe))
    ensures ok ==> Trade(m0, {}, vm.m, Owned(Owner(sp, from.n, trapframe))) && Copied(vm.m, from.sp, sp, from.n)
  {
    ghost var m1, o1 := vm.m, Owner(sp1, 0, trapframe);
    var r, sp2 := vm.UvmCopy(root, child, sz, from.sp, sp1);
    sp := sp2;
    ghost var m2, o2 := vm.m, Owner(sp, if r == Done then from.n else 0, trapframe);
    if r != Done {
      UndoneTrades(m1, o1, vm.m, o2);
      assert PageCount(0) == 0;
      var _ := FreeProc(vm, child, 0, trapframe, o2);
      TradeTrans(m0, {}, m1, Owned(o1), m2, Owned(o2));
      TradeTrans(m0, {}, m2, Owned(o2), vm.m, {});
      return false, sp;
    }
    CopyCopies(m1, sp1, vm.m, sp, from.sp, from.n);
    ChildTrades(m1, o1, vm.m, o2, CopyOf(from.sp.leaf, m1.pages));
    TradeTrans(m0, {}, m1, Owned(o1), m2, Owned(o2));
    return true, sp;
  }

  // --- all processes --------------------------------------------------------------------------------------

  /** A process as far as its memory goes. */
  datatype Task = Task(root: int, sz: nat, trapframe: int)

  function OwnerFor(t: Task, sp: Space): Owner {
    Owner(sp, PageCount(t.sz), t.trapframe)
  }

  predicate TaskOk(tasks: map<int, Task>, os: map<int, Owner>, p: int) {
    && (p in tasks <==> p in os)
    && (p in tasks ==> OwnerFor(tasks[p], os[p].sp) == os[p] && os[p].sp.root == tasks[p].root)
  }

  /** The tasks and what they own, over the memory `m0` that there was before the first. */
  ghost predicate Good(m0: Mem, m: Mem, tasks: map<int, Task>, os: map<int, Owner>) {
    MemOk(m0) && FewPages(m0, 0) && World(m0, m, os) && forall p :: TaskOk(tasks, os, p)
  }

  ghost predicate TasksKept(tasks: map<int, Task>, tasks': map<int, Task>, p: int) {
    forall q :: q != p ==> (q in tasks <==> q in tasks') && (q in tasks ==> tasks'[q] == tasks[q])
  }

  ghost predicate AloneAt(m: Mem, os: map<int, Owner>, m': Mem, os': map<int, Owner>, p: int, q: int) {
    q in os && q != p ==> q in os' && os'[q] == os[q] && Undisturbed(m, m', os[q])
  }

  /** Every process but `p` has the memory that it had, with the same contents and mappings. */
  ghost predicate Alone(m: Mem, os: map<int, Owner>, m': Mem, os': map<int, Owner>, p: int) {
    forall q :: AloneAt(m, os, m', os', p, q)
  }

  lemma GoodStep(m0: Mem, m: Mem, tasks: map<int, Task>, os: map<int, Owner>, p: int,
                 m': Mem, tasks': map<int, Task>, os': map<int, Owner>)
    requires Good(m0, m, tasks, os) && OthersKept(os, os', p) && TasksKept(tasks, tasks', p)
    requires Trade(m, OwnedBy(os, p), m', OwnedBy(os', p)) && SpaceAt(m', os', p) && TaskOk(tasks', os', p)
    ensures Good(m0, m', tasks', os') && Alone(m, os, m', os', p)
  {
    WorldStep(m0, m, os, p, m', os');
    forall q ensures AloneAt(m, os, m', os', p, q) {
      assert SpaceAt(m, os, q) && ApartAt(os, q, p);
      if q in os && q != p {
        OtherOwned(m, os[q], OwnedBy(os, p), m', OwnedBy(os', p));
      }
    }
    forall q ensures TaskOk(tasks', os', q) {
      assert TaskOk(tasks, os, q);
    }
  }

  /** A process is there that was not there before. */
  lemma GoodAdded(m0: Mem, m: Mem, tasks: map<int, Task>, os: map<int, Owner>, p: int, m': Mem, t: Task, sp: Space)
    requires Good(m0, m, tasks, os) && p !in tasks && sp.root == t.root && OwnerOk(m', OwnerFor(t, sp))
    requires Trade(m, {}, m', Owned(OwnerFor(t, sp)))
    ensures Good(m0, m', tasks[p := t], os[p := OwnerFor(t, sp)])
    ensures Alone(m, os, m', os[p := OwnerFor(t, sp)], p)
  {
    assert TaskOk(tasks, os, p);
    GoodStep(m0, m, tasks, os, p, m', tasks[p := t], os[p := OwnerFor(t, sp)]);
  }

  /** An attempt that failed has left memory as it was. */
  lemma GoodSame(m0: Mem, m: Mem, tasks: map<int, Task>, os: map<int, Owner>, p: int, m': Mem)
    requires Good(m0, m, tasks, os) && p !in tasks && Trade(m, {}, m', {})
    ensures Good(m0, m', tasks, os) && Alone(m, os, m', os, p)
  {
    assert TaskOk(tasks, os, p);
    GoodStep(m0, m, tasks, os, p, m', tasks, os);
  }

  lemma GoodResized(m0: Mem, m: Mem, tasks: map<int, Task>, os: map<int, Owner>, p: int, m': Mem, t: Task, sp: Space)
    requires Good(m0, m, tasks, os) && p in tasks && p in os && t.root == tasks[p].root == sp.root
    requires t.trapframe == tasks[p].trapframe
    requires ProcSpace(m', sp, PageCount(t.sz)) && Balanced(m, os[p].sp, os[p].n, m', sp, PageCount(t.sz))
    requires PagesKept(m, os[p].sp, os[p].n, m', sp, PageCount(t.sz))
    ensures Good(m0, m', tasks[p := t], os[p := OwnerFor(t, sp)])
    ensures Alone(m, os, m', os[p := OwnerFor(t, sp)], p)
  {
    assert TaskOk(tasks, os, p) && SpaceAt(m, os, p);
    assert PageKept(m.pages, os[p].sp.leaf, os[p].n, m'.pages, sp.leaf, PageCount(t.sz), TRAPFRAME / PGSIZE);
    BalancedTrades(m, os[p], m', OwnerFor(t, sp));
    GoodStep(m0, m, tasks, os, p, m', tasks[p := t], os[p := OwnerFor(t, sp)]);
  }

  lemma GoodRemoved(m0: Mem, m: Mem, tasks: map<int, Task>, os: map<int, Owner>, p: int, m': Mem)
    requires Good(m0, m, tasks, os) && p in tasks && p in os && Trade(m, Owned(os[p]), m', {})
    ensures Good(m0, m', tasks - {p}, os - {p}) && Alone(m, os, m', os - {p}, p)
  {
    assert TaskOk(tasks, os, p) && SpaceAt(m, os, p);
    GoodStep(m0, m, tasks, os, p, m', tasks - {p}, os - {p});
  }

  /** What a call needs to know about its process. */
  lemma GoodTask(m0: Mem, m: Mem, tasks: map<int, Task>, os: map<int, Owner>, p: int)
    requires Good(m0, m, tasks, os) && p in tasks
    ensures p in os && os[p].sp.root == tasks[p].root && os[p] == OwnerFor(tasks[p], os[p].sp)
    ensures OwnerOk(m, os[p]) && FewPages(m, os[p].n)
  {
    assert TaskOk(tasks, os, p) && SpaceAt(m, os, p);
    WorldFew(m0, m, os, p);
  }

  lemma GoodEnds(m0: Mem, m: Mem, tasks: map<int, Task>, os: map<int, Owner>)
    requires Good(m0, m, tasks, os) && tasks == map[]
    ensures Restored(m0, m)
  {
    forall p ensures p !in os {
      assert TaskOk(tasks, os, p);
    }
    SameOwners(os, map[]);
    WorldEnds(m0, m, os);
  }

  lemma Fewer(tasks: map<int, Task>, p: int)
    requires p in tasks
    ensures |(tasks - {p}).Keys| < |tasks.Keys|
  {
    assert (tasks - {p}).Keys == tasks.Keys - {p};
  }

  lemma NoTasks(tasks: map<int, Task>)
    requires forall p :: p !in tasks
    ensures tasks == map[]
  {
    assert forall p: int :: p !in tasks.Keys;
  }

  datatype Call =
    | Create(p: int)
    | Fork(p: int, q: int)
    | Grow(p: int, delta: int)
    | Exit(p: int)

  /** The argument of `sbrk` is an `int`. */
  predicate IsInt(n: int) {
    -0x8000_0000 <= n < 0x8000_0000
  }

  class Kernel {
    const vm: Machine
    const trampoline: int
    var tasks: map<int, Task>
    ghost const base: Mem            // memory before there was any process
    ghost var owners: map<int, Owner>

    ghost predicate Valid()
      reads this, vm
    {
      Good(base, vm.m, tasks, owners)
    }

    /** After `kinit`, with the memory from `end` on free, and before there is any process. */
    constructor (end: nat, trampoline: int)
      requires KERNBASE <= end <= PHYSTOP
      ensures Valid() && fresh(vm) && tasks == map[] && base == vm.m
      ensures forall f :: f in base.free <==> PageCount(end) <= f < PHYSTOP / PGSIZE
    {
      var machine := new Machine(end);
      this.vm, this.trampoline := machine, trampoline;
      base, tasks, owners := machine.m, map[], map[];
      WorldStart(machine.m);
    }

    /** An empty process, or -1 when there is no memory. */
    method Create(p: int) returns (root: int)
      requires Valid() && p !in tasks
      modifies this, vm
      ensures Valid() && Alone(old(vm.m), old(owners), vm.m, owners, p)
      ensures root == -1 ==> tasks == old(tasks)
      ensures root != -1 ==> p in tasks && tasks == old(tasks)[p := Task(root, 0, tasks[p].trapframe)]
    {
      var r, trapframe, sp := AllocProc(vm, trampoline);
      root := r;
      if root == -1 {
        GoodSame(base, old(vm.m), tasks, owners, p, vm.m);
        return;
      }
      var t := Task(root, 0, trapframe);
      assert PageCount(0) == 0;
      GoodAdded(base, old(vm.m), tasks, owners, p, vm.m, t, sp);
      tasks, owners := tasks[p := t], owners[p := OwnerFor(t, sp)];
    }

    /** A copy of a process, or -1 when there is no memory.  Its pages hold what the parent's do,
        and the parent and all others are as before. */
    method Fork(p: int, q: int) returns (root: int)
      requires Valid() && p in tasks && q !in tasks
      modifies this, vm
      ensures Valid() && Alone(old(vm.m), old(owners), vm.m, owners, q)
      ensures root == -1 ==> tasks == old(tasks)
      ensures root != -1 ==>
                q in tasks && tasks == old(tasks)[q := Task(root, old(tasks)[p].sz, tasks[q].trapframe)]
      ensures root != -1 ==> p in owners && q in owners && Copied(vm.m, owners[p].sp, owners[q].sp, owners[p].n)
    {
      GoodTask(base, vm.m, tasks, owners, p);
      var r, trapframe, sp := ForkSpace(vm, trampoline, tasks[p].root, tasks[p].sz, owners[p]);
      root := r;
      if root == -1 {
        GoodSame(base, old(vm.m), tasks, owners, q, vm.m);
        return;
      }
      var t := Task(root, tasks[p].sz, trapframe);
      GoodAdded(base, old(vm.m), tasks, owners, q, vm.m, t, sp);
      tasks, owners := tasks[q := t], owners[q := OwnerFor(t, sp)];
    }

    /** `sbrk` in a process.  The pages below both sizes keep their contents, new ones are zero. */
    method Grow(p: int, delta: int) returns (ok: bool, sz: nat)
      requires Valid() && p in tasks && IsInt(delta)
      modifies this, vm
      ensures Valid() && Alone(old(vm.m), old(owners), vm.m, owners, p)
      ensures tasks == old(tasks)[p := old(tasks)[p].(sz := sz)]
      ensures var was := old(tasks)[p].sz; sz == if ok && was + delta >= 0 then was + delta else was
      ensures p in old(owners) && p in owners
      ensures PagesKept(old(vm.m), old(owners)[p].sp, old(owners)[p].n, vm.m, owners[p].sp, owners[p].n)
    {
      GoodTask(base, vm.m, tasks, owners, p);
      ghost var sp;
      ok, sz, sp := vm.GrowProc(tasks[p].root, tasks[p].sz, delta, owners[p].sp);
      var t := tasks[p].(sz := sz);
      GoodResized(base, old(vm.m), tasks, owners, p, vm.m, t, sp);
      tasks, owners := tasks[p := t], owners[p := OwnerFor(t, sp)];
    }

    /** The end of a process.  Returns false where the code panics. */
    method Exit(p: int) returns (ok: bool)
      requires Valid() && p in tasks
      modifies this, vm
      ensures ok && Valid() && tasks == old(tasks) - {p}
      ensures Alone(old(vm.m), old(owners), vm.m, owners, p)
    {
      GoodTask(base, vm.m, tasks, owners, p);
      ok := FreeProc(vm, tasks[p].root, tasks[p].sz, tasks[p].trapframe, owners[p]);
      GoodRemoved(base, old(vm.m), tasks, owners, p, vm.m);
      tasks, owners := tasks - {p}, owners - {p};
    }

    /** One call; one that makes no sense is skipped. */
    method Do(call: Call) returns (ok: bool)
      requires Valid() && (call.Grow? ==> IsInt(call.delta))
      modifies this, vm
      ensures ok && Valid()
    {
      ok := true;
      match call
      case Create(p) =>
        if p !in tasks {
          var _ := Create(p);
        }
      case Fork(p, q) =>
        if p in tasks && q !in tasks {
          var _ := Fork(p, q);
        }
      case Grow(p, delta) =>
        if p in tasks {
          var _, _ := Grow(p, delta);
        }
      case Exit(p) =>
        if p in tasks {
          ok := Exit(p);
        }
    }

    /** Every process ends. */
    method ExitAll() returns (ok: bool)
      requires Valid()
      modifies this, vm
      ensures ok && tasks == map[] && Restored(base, vm.m)
    {
      ok := true;
      while exists p :: p in tasks
        invariant Valid() && ok
        decreases |tasks.Keys|
      {
        var p :| p in tasks;
        Fewer(tasks, p);
        ok := Exit(p);
      }
      NoTasks(tasks);
      GoodEnds(base, vm.m, tasks, owners);
    }

    /** Any sequence of calls, after which every process that is left ends: nothing panics, and
        memory is as it was before the first. */
    method Run(calls: seq<Call>) returns (ok: bool)
      requires Valid() && forall i :: 0 <= i < |calls| && calls[i].Grow? ==> IsInt(calls[i].delta)
      modifies this, vm
      ensures ok && tasks == map[] && Restored(base, vm.m)
    {
      ok := true;
      for i := 0 to |calls|
        invariant ok && Valid()
      {
        ok := Do(calls[i]);
      }
      var ended := ExitAll();
      return ok && ended;
    }
  }
}
