/** `kalloc.c` and `vm.c` on user page tables. */
module Vm {
  import opened Sv39
  import opened PageSpace
  import opened TableTree

  datatype Outcome = Done | NoMemory | Panic

  const KERNBASE := 0x8000_0000
  const PHYSTOP := KERNBASE + 128 * 1024 * 1024

  function Filled(c: int): (p: seq<int>)
    ensures |p| == PGSIZE
  {
    seq(PGSIZE, i => c)
  }

  /** The first free page has been taken and filled. */
  function GivenPage(m: Mem, data: seq<int>): Mem
    requires m.free != []
  {
    m.(free := m.free[1..], pages := m.pages[m.free[0] := data])
  }

  lemma AddRemove(pages: map<int, seq<int>>, f: int, c: seq<int>)
    requires f !in pages
    ensures pages[f := c] - {f} == pages
  {
    assert (pages[f := c] - {f}).Keys == pages.Keys;
  }

  lemma TakenAsTable(m: Mem, t: int, i: int)
    requires MemOk(m) && m.free != [] && t in m.tables && 0 <= i < |m.tables[t]|
    ensures var m1 := AsTable(GivenPage(m, Filled(5)), m.free[0]);
            && t in m1.tables && |m1.tables[t]| == |m.tables[t]|
            && SetEntry(m1, t, i, Branch(m.free[0])) == NewTable(m, t, i)
  {
    assert m.free[0] in m.free;
    AddRemove(m.pages, m.free[0], Filled(5));
  }

  /** The flat map with `k` more pages from `first`, on consecutive frames. */
  function MapRange(leaf: map<int, Pte>, first: int, k: nat, frame: int, perm: Flags): map<int, Pte> {
    if k == 0 then leaf
    else MapRange(leaf, first, k - 1, frame, perm)[first + k - 1 := Pte(frame + k - 1, perm.(v := true))]
  }

  lemma {:induction false} MapRangeIs(leaf: map<int, Pte>, first: int, k: nat, frame: int, perm: Flags, v: int)
    ensures var leaf' := MapRange(leaf, first, k, frame, perm);
            && (v in leaf' <==> v in leaf || first <= v < first + k)
            && (first <= v < first + k ==> leaf'[v] == Pte(frame + (v - first), perm.(v := true)))
            && (v in leaf && !(first <= v < first + k) ==> leaf'[v] == leaf[v])
  {
    if k > 0 {
      MapRangeIs(leaf, first, k - 1, frame, perm, v);
    }
  }

  /** How many pages `[va, va + size)` touches. */
  function PagesIn(va: nat, size: nat): nat
    requires size > 0
  {
    (va + size - 1) / PGSIZE - va / PGSIZE + 1
  }

  lemma RangeOf(va: nat, size: nat)
    requires size > 0 && va + size <= MAXVA
    ensures var first, n := va / PGSIZE, PagesIn(va, size);
            n > 0 && PgRoundDown(va) == first * PGSIZE && PgRoundDown(va + size - 1) == (first + n - 1) * PGSIZE < MAXVA
  {
  }

  ghost predicate Unmapped(leaf: map<int, Pte>, first: int, k: int) {
    forall v :: first <= v < first + k ==> v !in leaf
  }

  /** What one round of `mappages` does to the flat map. */
  predicate MapEffect(leaf: map<int, Pte>, v: int, frame: int, perm: Flags, r: Outcome, leaf': map<int, Pte>) {
    match r
    case Done => v !in leaf && leaf' == leaf[v := Pte(frame, perm.(v := true))]
    case NoMemory => leaf' == leaf
    case Panic => v in leaf && leaf' == leaf
  }

  lemma MapRound(leaf: map<int, Pte>, first: int, k: nat, frame: int, perm: Flags,
                 cur: map<int, Pte>, v: int, f: int, r: Outcome, leaf': map<int, Pte>)
    requires Unmapped(leaf, first, k) && cur == MapRange(leaf, first, k, frame, perm) && v == first + k
             && f == frame + k
    requires MapEffect(cur, v, f, perm, r, leaf')
    ensures r == Done ==> leaf' == MapRange(leaf, first, k + 1, frame, perm) && Unmapped(leaf, first, k + 1)
    ensures r != Done ==> leaf' == MapRange(leaf, first, k, frame, perm)
    ensures r == Panic ==> first + k in leaf
  {
    MapRangeIs(leaf, first, k, frame, perm, first + k);
  }

  /** `k` pages have been mapped, from `first` on. */
  ghost predicate MapState(m0: Mem, sp0: Space, m: Mem, sp: Space, first: int, k: nat, frame: int, perm: Flags) {
    && Kept(m0, sp0, m, sp) && m.pages == m0.pages
    && sp.leaf == MapRange(sp0.leaf, first, k, frame, perm) && Unmapped(sp0.leaf, first, k)
  }

  /** Page `k` of `n` is the next to be mapped. */
  predicate Upcoming(a: int, f: int, first: int, k: int, n: int, frame: int) {
    a == (first + k) * PGSIZE && f == frame + k && k < n
  }

  /** `mappages` goes on to the end, or stops where memory runs out or a page is mapped already. */
  ghost predicate MapEnds(r: Outcome, m: Mem, sp0: Space, first: int, k: nat, n: nat) {
    match r
    case Done => k == n
    case NoMemory => k < n && |m.free| == 0
    case Panic => k < n && first + k in sp0.leaf
  }

  /** Writing the entry of a page whose table exists. */
  lemma LeafKept(m: Mem, sp: Space, v: int, pte: Pte)
    requires MemOk(m) && Rep(m.tables, sp) && 0 <= v && v / 512 in sp.low && (IsLeaf(pte) || pte == ZERO)
    ensures var t := sp.low[v / 512];
            && t in m.tables && |m.tables[t]| == 512
            && Kept(m, sp, SetEntry(m, t, v % 512, pte),
                    sp.(leaf := if pte == ZERO then sp.leaf - {v} else sp.leaf[v := pte]))
  {
    SetLeaf(m.tables, sp, v, pte);
    FramesAreTables(m.tables, sp);
    var sp' := sp.(leaf := if pte == ZERO then sp.leaf - {v} else sp.leaf[v := pte]);
    assert Frames(sp') == Frames(sp);
    assert sp.low[v / 512] in Frames(sp);
  }

  // --- taking mappings away ------------------------------------------------------------------------

  /** The flat map without the `k` pages from `first`. */
  function Dropped(leaf: map<int, Pte>, first: int, k: int): map<int, Pte> {
    map v | v in leaf && !(first <= v < first + k) :: leaf[v]
  }

  /** The frames of the pages from `first` on, as far as they are mapped. */
  function PageFrames(leaf: map<int, Pte>, first: int, k: int): set<int> {
    set v | v in leaf && first <= v < first + k :: leaf[v].frame
  }

  predicate PrivateAt(pages: map<int, seq<int>>, leaf: map<int, Pte>, first: int, k: int, v: int, w: int) {
    v in leaf && first <= v < first + k ==>
      && leaf[v].frame in pages
      && (w in leaf && first <= w < first + k && leaf[w].frame == leaf[v].frame ==> v == w)
  }

  /** The pages from `first` on are on frames of their own. */
  ghost predicate Private(pages: map<int, seq<int>>, leaf: map<int, Pte>, first: int, k: int) {
    forall v, w :: PrivateAt(pages, leaf, first, k, v, w)
  }

  ghost predicate AllMapped(leaf: map<int, Pte>, first: int, k: int) {
    forall v :: first <= v < first + k ==> v in leaf
  }

  /** Tables that are not the space's are as before. */
  ghost predicate TablesKept(m0: Mem, sp0: Space, m: Mem) {
    && m.tables.Keys == m0.tables.Keys
    && forall f :: f in m0.tables && f !in Frames(sp0) ==> m.tables[f] == m0.tables[f]
  }

  /** `k` pages have been unmapped, from `first` on, and their frames freed if asked for. */
  ghost predicate UnmapState(m0: Mem, sp0: Space, m: Mem, sp: Space, first: int, k: int, doFree: bool) {
    && MemOk(m) && Rep(m.tables, sp) && sp == sp0.(leaf := Dropped(sp0.leaf, first, k)) && TablesKept(m0, sp0, m)
    && (if doFree then
          && m.pages == m0.pages - PageFrames(sp0.leaf, first, k)
          && FreeSet(m) == FreeSet(m0) + PageFrames(sp0.leaf, first, k) && |m.free| == |m0.free| + k
        else m.pages == m0.pages && m.free == m0.free)
  }

  /** `kfree`. */
  function Freed(m: Mem, f: int): Mem {
    m.(free := [f] + m.free, pages := m.pages - {f}, tables := m.tables - {f})
  }

  lemma FreedOk(m: Mem, f: int)
    requires MemOk(m) && (f in m.pages || f in m.tables)
    ensures MemOk(Freed(m, f)) && FreeSet(Freed(m, f)) == FreeSet(m) + {f}
    ensures f in m.pages ==> Freed(m, f).tables == m.tables
  {
    assert forall g :: g in [f] + m.free <==> g == f || g in m.free;
    if f in m.pages {
      assert (m.tables - {f}).Keys == m.tables.Keys;
    }
  }

  lemma ListedOk(m: Mem, f: int)
    requires MemOk(m) && 0 <= f && f !in m.free && f !in m.tables && f !in m.pages
    ensures MemOk(m.(free := [f] + m.free)) && forall g :: g in [f] + m.free <==> g == f || g in m.free
  {
    assert forall g :: g in [f] + m.free <==> g == f || g in m.free;
    assert forall j :: 0 < j <= |m.free| ==> ([f] + m.free)[j] in m.free;
  }

  lemma UnmapStart(m: Mem, sp: Space, first: int, doFree: bool)
    requires MemOk(m) && Rep(m.tables, sp)
    ensures UnmapState(m, sp, m, sp, first, 0, doFree)
  {
    assert Dropped(sp.leaf, first, 0) == sp.leaf;
    assert PageFrames(sp.leaf, first, 0) == {};
    assert m.pages - {} == m.pages;
  }

  /** Memory once page `v` is unmapped. */
  function WithoutPage(m: Mem, sp: Space, v: int, doFree: bool): Mem
    requires v in sp.leaf && 0 <= v && v / 512 in sp.low
    requires sp.low[v / 512] in m.tables && |m.tables[sp.low[v / 512]]| == 512
    requires doFree ==> sp.leaf[v].frame !in m.tables
  {
    SetEntry(if doFree then Freed(m, sp.leaf[v].frame) else m, sp.low[v / 512], v % 512, ZERO)
  }

  lemma Unmapped1(m: Mem, sp: Space, v: int, doFree: bool)
    requires MemOk(m) && Rep(m.tables, sp) && v in sp.leaf && (doFree ==> sp.leaf[v].frame in m.pages)
    ensures 0 <= v && v / 512 in sp.low && sp.low[v / 512] in m.tables && |m.tables[sp.low[v / 512]]| == 512
    ensures UnmapState(m, sp, WithoutPage(m, sp, v, doFree), sp.(leaf := sp.leaf - {v}), v, 1, doFree)
  {
    assert NestedAt(sp, v);
    LeafKept(m, sp, v, ZERO);
    DroppedMore(sp.leaf, v, 0);
    DroppedNone(sp.leaf, v);
    if doFree {
      UnmappedFree(m, sp, v, sp.leaf[v].frame);
    }
  }

  lemma UnmappedFree(m: Mem, sp: Space, v: int, f: int)
    requires MemOk(m) && Rep(m.tables, sp) && v in sp.leaf && sp.leaf[v].frame == f && f in m.pages
    requires PageFrames(sp.leaf, v, 1) == {f} && Dropped(sp.leaf, v, 1) == sp.leaf - {v}
    ensures 0 <= v && v / 512 in sp.low && sp.low[v / 512] in m.tables && |m.tables[sp.low[v / 512]]| == 512
    ensures UnmapState(m, sp, WithoutPage(m, sp, v, true), sp.(leaf := sp.leaf - {v}), v, 1, true)
  {
    assert NestedAt(sp, v);
    LeafKept(m, sp, v, ZERO);
    FreedOk(m, f);
    LeafKept(Freed(m, f), sp, v, ZERO);
  }

  lemma DroppedNone(leaf: map<int, Pte>, first: int)
    ensures Dropped(leaf, first, 0) == leaf && PageFrames(leaf, first, 0) == {}
  {
  }

  lemma DroppedMore(leaf: map<int, Pte>, first: int, k: nat)
    requires first + k in leaf
    ensures Dropped(leaf, first, k) - {first + k} == Dropped(leaf, first, k + 1)
    ensures PageFrames(leaf, first, k + 1) == PageFrames(leaf, first, k) + {leaf[first + k].frame}
  {
    assert (Dropped(leaf, first, k) - {first + k}).Keys == Dropped(leaf, first, k + 1).Keys;
  }

  lemma UnmapTrans(m0: Mem, sp0: Space, m1: Mem, sp1: Space, m2: Mem, sp2: Space, first: int, k: nat, doFree: bool)
    requires UnmapState(m0, sp0, m1, sp1, first, k, doFree) && UnmapState(m1, sp1, m2, sp2, first + k, 1, doFree)
    requires first + k in sp0.leaf
    ensures UnmapState(m0, sp0, m2, sp2, first, k + 1, doFree)
  {
    DroppedMore(sp0.leaf, first, k);
    assert Dropped(sp1.leaf, first + k, 1) == sp1.leaf - {first + k};
    assert first + k in sp1.leaf && sp1.leaf[first + k] == sp0.leaf[first + k];
    assert PageFrames(sp1.leaf, first + k, 1) == {sp0.leaf[first + k].frame};
    assert Frames(sp1) == Frames(sp0);
    var gone, f := PageFrames(sp0.leaf, first, k), sp0.leaf[first + k].frame;
    assert (m0.pages - gone) - {f} == m0.pages - (gone + {f});
  }

  lemma StillOwned(pages: map<int, seq<int>>, leaf: map<int, Pte>, first: int, k: nat, n: int)
    requires Private(pages, leaf, first, n) && k < n && first + k in leaf
    ensures leaf[first + k].frame in pages - PageFrames(leaf, first, k)
  {
    assert PrivateAt(pages, leaf, first, n, first + k, first + k);
    forall v | v in leaf && first <= v < first + k ensures leaf[v].frame != leaf[first + k].frame {
      assert PrivateAt(pages, leaf, first, n, first + k, v);
    }
  }

  // --- adding pages ----------------------------------------------------------------------------------

  /** What a new page should be: its permissions and its contents. */
  datatype Want = Want(flags: Flags, data: seq<int>)

  /** What the new pages should be: zeroed, or copies of pages of another space. */
  datatype Source = Zeroed(flags: Flags) | CopyOf(leaf: map<int, Pte>, pages: map<int, seq<int>>)

  predicate Offers(src: Source, v: int) {
    src.CopyOf? ==> v in src.leaf && src.leaf[v].frame in src.pages
  }

  function Wanted(src: Source, v: int): Want
    requires Offers(src, v)
  {
    if src.Zeroed? then Want(src.flags, Filled(0)) else Want(src.leaf[v].flags, src.pages[src.leaf[v].frame])
  }

  /** The pages that have left the free list are page-table pages of the space and the pages
      `taken`; the tables of other spaces are as before. */
  ghost predicate PoolKept(m0: Mem, sp0: Space, m: Mem, sp: Space, taken: set<int>) {
    && FreeSet(m) <= FreeSet(m0) && Frames(sp0) <= Frames(sp)
    && FreeSet(m) + Frames(sp) + taken == FreeSet(m0) + Frames(sp0)
    && m.tables.Keys == m0.tables.Keys + Frames(sp)
    && (forall g :: g in m0.tables && g !in Frames(sp0) ==> m.tables[g] == m0.tables[g])
  }

  lemma PoolTrans(m0: Mem, sp0: Space, m1: Mem, sp1: Space, m2: Mem, sp2: Space, x: set<int>, y: set<int>)
    requires MemOk(m0) && PoolKept(m0, sp0, m1, sp1, x) && PoolKept(m1, sp1, m2, sp2, y)
    ensures PoolKept(m0, sp0, m2, sp2, x + y)
  {
    forall g | g in m0.tables && g !in Frames(sp0) ensures m2.tables[g] == m0.tables[g] {
      assert g !in FreeSet(m0);
    }
  }

  /** Page `v` has been put on frame `f`. */
  ghost predicate Added(m0: Mem, sp0: Space, m: Mem, sp: Space, v: int, f: int, want: Want) {
    && MemOk(m) && Rep(m.tables, sp) && sp.root == sp0.root
    && v !in sp0.leaf && sp.leaf == sp0.leaf[v := Pte(f, want.flags)]
    && f !in m0.pages && m.pages == m0.pages[f := want.data]
    && |m.free| < |m0.free| && PoolKept(m0, sp0, m, sp, {f})
  }

  /** The page has been added, or nothing but page-table pages. */
  ghost predicate MayAdd(m0: Mem, sp0: Space, m: Mem, sp: Space, v: int, f: int, want: Want, ok: bool) {
    if ok then Added(m0, sp0, m, sp, v, f, want)
    else Kept(m0, sp0, m, sp) && sp.leaf == sp0.leaf && m.pages == m0.pages
  }

  lemma GivenOk(m: Mem, data: seq<int>)
    requires MemOk(m) && m.free != [] && |data| == PGSIZE
    ensures var f, g := m.free[0], GivenPage(m, data);
            && MemOk(g) && f in m.free && f !in m.pages && f !in m.tables && f !in g.free
            && FreeSet(g) == FreeSet(m) - {f}
  {
    assert m.free == [m.free[0]] + m.free[1..];
    assert m.free[0] in m.free;
    assert forall g :: g in m.free[1..] ==> g in m.free && g != m.free[0];
  }

  lemma AddedFrom(m: Mem, sp: Space, m2: Mem, sp2: Space, v: int, flags: Flags, data: seq<int>)
    requires MemOk(m) && m.free != [] && |data| == PGSIZE && flags.v && v !in sp.leaf
    requires MapState(GivenPage(m, data), sp, m2, sp2, v, 1, m.free[0], flags)
    ensures Added(m, sp, m2, sp2, v, m.free[0], Want(flags, data))
  {
    GivenOk(m, data);
    var leaf := sp.leaf;
    assert MapRange(leaf, v, 1, m.free[0], flags) == MapRange(leaf, v, 0, m.free[0], flags)[v := Pte(m.free[0], flags)];
  }

  lemma PageAt(a: nat, v: int)
    requires a == v * PGSIZE
    ensures PagesIn(a, PGSIZE) == 1 && a / PGSIZE == v
  {
  }

  lemma GivenBack(m: Mem, sp: Space, m2: Mem, sp2: Space, v: int, k: nat, flags: Flags, data: seq<int>)
    requires MemOk(m) && m.free != [] && |data| == PGSIZE && k == 0
    requires MapState(GivenPage(m, data), sp, m2, sp2, v, k, m.free[0], flags)
    ensures var f := m.free[0];
            f in m2.pages && Kept(m, sp, Freed(m2, f), sp2) && sp2.leaf == sp.leaf && Freed(m2, f).pages == m.pages
  {
    GivenOk(m, data);
    FreedOk(m2, m.free[0]);
    AddRemove(m.pages, m.free[0], data);
  }

  predicate BuiltAt(pages: map<int, seq<int>>, leaf: map<int, Pte>, first: int, k: int, src: Source, v: int) {
    first <= v < first + k ==>
      && v in leaf && Offers(src, v) && leaf[v].flags == Wanted(src, v).flags
      && leaf[v].frame in pages && pages[leaf[v].frame] == Wanted(src, v).data
  }

  /** `k` pages have been added, from `first` on, each on a frame of its own with the wanted
      contents and permissions; nothing else has changed but page-table pages of the space, and
      no frame has been lost. */
  ghost predicate Built(m0: Mem, sp0: Space, m: Mem, sp: Space, first: int, k: int, src: Source) {
    && MemOk(m) && Rep(m.tables, sp) && sp.root == sp0.root
    && Dropped(sp.leaf, first, k) == sp0.leaf
    && (forall v :: BuiltAt(m.pages, sp.leaf, first, k, src, v))
    && Private(m.pages, sp.leaf, first, k)
    && m.pages - PageFrames(sp.leaf, first, k) == m0.pages
    && |m.free| + k <= |m0.free| && PoolKept(m0, sp0, m, sp, PageFrames(sp.leaf, first, k))
  }

  lemma BuiltStart(m: Mem, sp: Space, first: int, src: Source)
    requires MemOk(m) && Rep(m.tables, sp)
    ensures Built(m, sp, m, sp, first, 0, src)
  {
    assert Dropped(sp.leaf, first, 0) == sp.leaf;
    assert PageFrames(sp.leaf, first, 0) == {};
    assert m.pages - {} == m.pages;
    FramesAreTables(m.tables, sp);
  }

  lemma BuiltMaps(leaf0: map<int, Pte>, leaf1: map<int, Pte>, first: int, k: nat, f: int, flags: Flags)
    requires Dropped(leaf1, first, k) == leaf0 && first + k !in leaf1
    ensures var leaf2 := leaf1[first + k := Pte(f, flags)];
            && Dropped(leaf2, first, k + 1) == leaf0
            && PageFrames(leaf2, first, k + 1) == PageFrames(leaf1, first, k) + {f}
  {
    var leaf2 := leaf1[first + k := Pte(f, flags)];
    forall v | v in leaf1 && first <= v < first + k ensures leaf1[v].frame in PageFrames(leaf2, first, k + 1) {
      assert v in leaf2 && leaf2[v] == leaf1[v];
    }
    assert leaf2[first + k].frame == f;
  }

  lemma StaysPrivate(pages: map<int, seq<int>>, leaf: map<int, Pte>, pages': map<int, seq<int>>, leaf': map<int, Pte>,
                     first: int, k: nat, n: nat, f: int)
    requires n == k + 1 && Private(pages, leaf, first, k) && first + k !in leaf
    requires f !in pages && f in pages' && (forall x :: x in pages ==> x in pages')
    requires first + k in leaf' && leaf'[first + k].frame == f && leaf' == leaf[first + k := leaf'[first + k]]
    ensures Private(pages', leaf', first, n)
  {
    forall v, w ensures PrivateAt(pages', leaf', first, n, v, w) {
      assert PrivateAt(pages, leaf, first, k, v, w) && PrivateAt(pages, leaf, first, k, w, v);
    }
  }

  lemma BuiltPages(m0: Mem, sp0: Space, m1: Mem, sp1: Space, m2: Mem, sp2: Space,
                   first: int, k: nat, n: nat, f: int, src: Source)
    requires Built(m0, sp0, m1, sp1, first, k, src) && Offers(src, first + k) && n == k + 1
    requires sp2.leaf == sp1.leaf[first + k := Pte(f, Wanted(src, first + k).flags)] && first + k !in sp1.leaf
    requires f !in m1.pages && m2.pages == m1.pages[f := Wanted(src, first + k).data]
    ensures forall v :: BuiltAt(m2.pages, sp2.leaf, first, n, src, v)
    ensures Private(m2.pages, sp2.leaf, first, n)
    ensures m2.pages - (PageFrames(sp1.leaf, first, k) + {f}) == m0.pages
  {
    forall v ensures BuiltAt(m2.pages, sp2.leaf, first, n, src, v) {
      assert BuiltAt(m1.pages, sp1.leaf, first, k, src, v);
    }
    StaysPrivate(m1.pages, sp1.leaf, m2.pages, sp2.leaf, first, k, n, f);
    AddRemove(m1.pages, f, Wanted(src, first + k).data);
    var gone := PageFrames(sp1.leaf, first, k);
    assert m2.pages - (gone + {f}) == (m2.pages - {f}) - gone;
  }

  lemma BuiltStep(m0: Mem, sp0: Space, m1: Mem, sp1: Space, m2: Mem, sp2: Space,
                  first: int, k: nat, v: int, f: int, want: Want, src: Source)
    requires MemOk(m0) && Built(m0, sp0, m1, sp1, first, k, src) && v == first + k && Offers(src, v)
             && want == Wanted(src, v)
    requires Added(m1, sp1, m2, sp2, v, f, want)
    ensures Built(m0, sp0, m2, sp2, first, k + 1, src)
  {
    BuiltMaps(sp0.leaf, sp1.leaf, first, k, f, Wanted(src, first + k).flags);
    BuiltPages(m0, sp0, m1, sp1, m2, sp2, first, k, k + 1, f, src);
    PoolTrans(m0, sp0, m1, sp1, m2, sp2, PageFrames(sp1.leaf, first, k), {f});
  }

  lemma BuiltNext(m0: Mem, sp0: Space, m1: Mem, sp1: Space, m2: Mem, sp2: Space,
                  first: int, k: nat, k': nat, v: int, f: int, want: Want, src: Source, added: bool)
    requires MemOk(m0) && Built(m0, sp0, m1, sp1, first, k, src) && v == first + k && Offers(src, v)
    requires want == Wanted(src, v)
    requires MayAdd(m1, sp1, m2, sp2, v, f, want, added)
    requires k' == if added then k + 1 else k
    ensures Built(m0, sp0, m2, sp2, first, k', src)
  {
    if added {
      BuiltStep(m0, sp0, m1, sp1, m2, sp2, first, k, v, f, want, src);
    } else {
      BuiltMore(m0, sp0, m1, sp1, m2, sp2, first, k, src);
    }
  }

  /** Table pages may have been added since. */
  lemma BuiltMore(m0: Mem, sp0: Space, m1: Mem, sp1: Space, m2: Mem, sp2: Space, first: int, k: nat, src: Source)
    requires MemOk(m0) && Built(m0, sp0, m1, sp1, first, k, src)
    requires Kept(m1, sp1, m2, sp2) && sp2.leaf == sp1.leaf && m2.pages == m1.pages
    ensures Built(m0, sp0, m2, sp2, first, k, src)
  {
    assert PoolKept(m1, sp1, m2, sp2, {});
    PoolTrans(m0, sp0, m1, sp1, m2, sp2, PageFrames(sp1.leaf, first, k), {});
  }

  /** The flat map and every page are as before; only page-table pages have been taken. */
  ghost predicate Undone(m0: Mem, sp0: Space, m: Mem, sp: Space) {
    Kept(m0, sp0, m, sp) && sp.leaf == sp0.leaf && m.pages == m0.pages
  }

  /** Unmapping and freeing what was added gives back every page. */
  lemma UndoBuilt(m0: Mem, sp0: Space, m1: Mem, sp1: Space, m2: Mem, sp2: Space, first: int, k: nat, src: Source)
    requires MemOk(m0) && Rep(m0.tables, sp0) && MemOk(m1) && Built(m0, sp0, m1, sp1, first, k, src)
    requires UnmapState(m1, sp1, m2, sp2, first, k, true)
    ensures Undone(m0, sp0, m2, sp2)
  {
    var taken := PageFrames(sp1.leaf, first, k);
    assert Frames(sp2) == Frames(sp1);
    FramesAreTables(m1.tables, sp1);
    FramesAreTables(m0.tables, sp0);
    forall f | f in taken ensures f in m1.pages {
      var v :| v in sp1.leaf && first <= v < first + k && f == sp1.leaf[v].frame;
      assert PrivateAt(m1.pages, sp1.leaf, first, k, v, v);
    }
    forall g | g in m0.tables && g !in Frames(sp0) ensures m2.tables[g] == m0.tables[g] {
      assert g !in FreeSet(m0);
    }
  }

  /** The tables of another space are not touched. */
  lemma OtherSpaceKept(m0: Mem, sp0: Space, m: Mem, sp: Space, taken: set<int>, other: Space)
    requires PoolKept(m0, sp0, m, sp, taken) && Rep(m0.tables, other) && Frames(other) !! Frames(sp0)
    ensures Rep(m.tables, other)
  {
    FramesAreTables(m0.tables, other);
    RepElsewhere(m0.tables, m.tables, other);
  }

  lemma OldPages(m0: Mem, sp0: Space, m: Mem, sp: Space, first: int, k: int, src: Source, f: int)
    requires Built(m0, sp0, m, sp, first, k, src) && f in m0.pages
    ensures f in m.pages && m.pages[f] == m0.pages[f]
  {
    assert f in m.pages - PageFrames(sp.leaf, first, k);
  }

  /** A copied page has the same permissions and bytes, on a frame that was free before. */
  lemma CopyIsFaithful(m0: Mem, sp0: Space, m: Mem, sp: Space, from: Space, n: int, v: int)
    requires MemOk(m0) && Rep(m0.tables, sp0) && Built(m0, sp0, m, sp, 0, n, CopyOf(from.leaf, m0.pages)) && 0 <= v < n
    ensures v in sp.leaf && v in from.leaf && sp.leaf[v].flags == from.leaf[v].flags
    ensures var f, g := from.leaf[v].frame, sp.leaf[v].frame;
            && f in m0.pages && f in m.pages && g in m.pages && m.pages[g] == m.pages[f] == m0.pages[f]
            && g in FreeSet(m0) && g !in m0.pages
  {
    assert BuiltAt(m.pages, sp.leaf, 0, n, CopyOf(from.leaf, m0.pages), v);
    OldPages(m0, sp0, m, sp, 0, n, CopyOf(from.leaf, m0.pages), from.leaf[v].frame);
    assert sp.leaf[v].frame in PageFrames(sp.leaf, 0, n);
    FramesAreTables(m.tables, sp);
  }

  lemma NothingBuilt(m0: Mem, sp0: Space, m: Mem, sp: Space, first: int, src: Source)
    requires Built(m0, sp0, m, sp, first, 0, src)
    ensures Undone(m0, sp0, m, sp)
  {
    assert Dropped(sp.leaf, first, 0) == sp.leaf;
    assert PageFrames(sp.leaf, first, 0) == {};
    assert m.pages - {} == m.pages;
  }

  lemma BuiltMapped(m0: Mem, sp0: Space, m: Mem, sp: Space, first: int, k: nat, src: Source)
    requires Built(m0, sp0, m, sp, first, k, src)
    ensures AllMapped(sp.leaf, first, k)
  {
    forall v | first <= v < first + k ensures v in sp.leaf {
      assert BuiltAt(m.pages, sp.leaf, first, k, src, v);
    }
  }

  /** How many pages a process of size `sz` has. */
  function PageCount(sz: nat): nat {
    PgRoundUp(sz) / PGSIZE
  }

  lemma PagesBetween(lo: nat, hi: nat, first: nat, n: int)
    requires lo <= hi && first == PageCount(lo) && n == PageCount(hi) - first
    ensures 0 <= n && PgRoundUp(lo) % PGSIZE == 0 && PgRoundUp(lo) / PGSIZE == first
    ensures (PgRoundUp(hi) - PgRoundUp(lo)) / PGSIZE == n && PgRoundUp(lo) + n * PGSIZE == PgRoundUp(hi)
    ensures PgRoundUp(lo) < PgRoundUp(hi) <==> n > 0
  {
  }

  lemma RoomLeft(oldsz: nat, newsz: nat)
    requires oldsz <= newsz
    ensures var first, n := PageCount(oldsz), PageCount(newsz) - PageCount(oldsz);
            && PgRoundUp(oldsz) == first * PGSIZE && 0 <= n && (first + n) * PGSIZE == PgRoundUp(newsz)
            && newsz <= (first + n) * PGSIZE && (n > 0 ==> (first + n - 1) * PGSIZE < newsz)
  {
  }

  /** `n` pages from `first` on can be asked for: there is room for `room` of them, and that is
      all of them or more than there are free pages. */
  ghost predicate Roomy(m: Mem, sp: Space, first: nat, n: int, room: nat) {
    && Unmapped(sp.leaf, first, room) && (first + room) * PGSIZE <= MAXVA && (n > 0 ==> room <= n)
    && (room >= n || |m.free| < room)
  }

  lemma StillUnmapped(leaf0: map<int, Pte>, leaf: map<int, Pte>, first: int, k: nat, v: int)
    requires Dropped(leaf, first, k) == leaf0 && v !in leaf0 && first + k <= v
    ensures v !in leaf
  {
    assert v in leaf ==> v in Dropped(leaf, first, k);
  }

  /** The table itself goes last. */
  lemma FreeRoot(m0: Mem, m: Mem, sp: Space, level: int, key: int, t: int)
    requires SpaceOk(sp) && 0 <= key && IsNode(sp, level, key, t) && WalkState(m0, m, sp, level, key, t, 512)
    ensures t in m.tables && FreedTables(m0, Freed(m, t), SubFrames(sp, level, key))
  {
    WalkEnd(m0, m, sp, level, key, t);
    FreedOk(m, t);
    assert t !in m.pages && m.pages - {t} == m.pages;
  }

  // --- the address space of a process -------------------------------------------------------------------

  const TRAMPOLINE := MAXVA - PGSIZE
  const TRAPFRAME := TRAMPOLINE - PGSIZE

  predicate IsUserPage(v: int, n: int) {
    0 <= v < n || v == TRAPFRAME / PGSIZE || v == TRAMPOLINE / PGSIZE
  }

  /** A space with `n` pages of user memory, the trapframe and the trampoline. */
  ghost predicate ProcSpace(m: Mem, sp: Space, n: nat) {
    && MemOk(m) && Rep(m.tables, sp) && n * PGSIZE <= TRAPFRAME
    && (forall v :: v in sp.leaf <==> IsUserPage(v, n))
    && Private(m.pages, sp.leaf, 0, n) && KernelOnly(sp.leaf)
  }

  /** The program itself cannot use the trapframe and the trampoline. */
  predicate KernelOnly(leaf: map<int, Pte>) {
    && (TRAPFRAME / PGSIZE in leaf ==> !leaf[TRAPFRAME / PGSIZE].flags.u)
    && (TRAMPOLINE / PGSIZE in leaf ==> !leaf[TRAMPOLINE / PGSIZE].flags.u)
  }

  /** The frames of the trampoline and the trapframe. */
  predicate KernelPages(leaf: map<int, Pte>, trampoline: int, trapframe: int) {
    && TRAMPOLINE / PGSIZE in leaf && leaf[TRAMPOLINE / PGSIZE].frame == trampoline
    && TRAPFRAME / PGSIZE in leaf && leaf[TRAPFRAME / PGSIZE].frame == trapframe
  }

  /** Everything that the space and the free list hold between them. */
  function Pool(m: Mem, sp: Space, n: int): set<int> {
    FreeSet(m) + Frames(sp) + PageFrames(sp.leaf, 0, n)
  }

  /** The tables and pages of the space have gone back to the free list. */
  ghost predicate SpaceFreed(m0: Mem, sp: Space, n: int, m: Mem) {
    && MemOk(m) && FreeSet(m) == Pool(m0, sp, n)
    && m.pages == m0.pages - PageFrames(sp.leaf, 0, n)
    && m.tables.Keys == m0.tables.Keys - Frames(sp)
    && forall f :: f in m.tables ==> m.tables[f] == m0.tables[f]
  }

  lemma FramesAreSub(sp: Space)
    ensures SubFrames(sp, 2, 0) == Frames(sp)
  {
  }

  lemma RootSubRep(tables: map<int, seq<Pte>>, sp: Space)
    requires Rep(tables, sp)
    ensures SpaceOk(sp) && SubRep(tables, sp, 2, 0) && IsNode(sp, 2, 0, sp.root)
  {
  }

  lemma AllDropped(leaf: map<int, Pte>, n: int)
    requires forall v :: v in leaf ==> 0 <= v < n
    ensures Dropped(leaf, 0, n) == map[]
  {
  }

  /** Only the `n` pages of user memory are still mapped; memory is as before but for the entries. */
  ghost predicate UserOnly(m0: Mem, sp0: Space, m: Mem, sp: Space, n: nat) {
    && MemOk(m) && Rep(m.tables, sp) && sp.root == sp0.root && Frames(sp) == Frames(sp0) && TablesKept(m0, sp0, m)
    && m.pages == m0.pages && m.free == m0.free
    && (forall v :: v in sp.leaf <==> 0 <= v < n)
    && Private(m.pages, sp.leaf, 0, n) && PageFrames(sp.leaf, 0, n) == PageFrames(sp0.leaf, 0, n)
  }

  /** Without the trampoline and the trapframe, the user memory is left. */
  lemma UserPagesLeft(m: Mem, sp: Space, m1: Mem, sp1: Space, m2: Mem, sp2: Space, n: nat)
    requires ProcSpace(m, sp, n)
    requires UnmapState(m, sp, m1, sp1, TRAMPOLINE / PGSIZE, 1, false)
             && UnmapState(m1, sp1, m2, sp2, TRAPFRAME / PGSIZE, 1, false)
    ensures UserOnly(m, sp, m2, sp2, n)
  {
    assert Frames(sp2) == Frames(sp) && Frames(sp1) == Frames(sp);
    forall v ensures v in sp2.leaf <==> 0 <= v < n {
      assert v in sp.leaf <==> IsUserPage(v, n);
    }
    forall v | 0 <= v < n ensures sp2.leaf[v] == sp.leaf[v] && v in sp.leaf {
      assert v in sp2.leaf;
    }
    forall v, w ensures PrivateAt(m2.pages, sp2.leaf, 0, n, v, w) {
      assert PrivateAt(m.pages, sp.leaf, 0, n, v, w);
    }
  }

  lemma SameFreed(m: Mem, sp: Space, m2: Mem, sp2: Space, m3: Mem, n: nat)
    requires UserOnly(m, sp, m2, sp2, n) && SpaceFreed(m2, sp2, n, m3)
    ensures SpaceFreed(m, sp, n, m3)
  {
  }

  lemma FreedSpace(m0: Mem, sp0: Space, m1: Mem, sp1: Space, m2: Mem, n: nat)
    requires Rep(m0.tables, sp0) && UnmapState(m0, sp0, m1, sp1, 0, n, true)
             && FreedTables(m1, m2, SubFrames(sp1, 2, 0))
    ensures SpaceFreed(m0, sp0, n, m2)
  {
    FramesAreSub(sp1);
    assert Frames(sp1) == Frames(sp0);
  }

  /** A new space has been made from the free list. */
  ghost predicate Created(m0: Mem, m: Mem, sp: Space) {
    && MemOk(m) && Rep(m.tables, sp) && m.pages == m0.pages
    && FreeSet(m) + Frames(sp) == FreeSet(m0)
    && m.tables.Keys == m0.tables.Keys + Frames(sp) && m0.tables.Keys !! Frames(sp)
    && (forall f :: f in m0.tables ==> m.tables[f] == m0.tables[f])
  }

  /** The free list holds the same pages as before, and so do all the others. */
  ghost predicate Restored(m0: Mem, m: Mem) {
    MemOk(m) && FreeSet(m) == FreeSet(m0) && m.pages == m0.pages && m.tables == m0.tables
  }

  function EmptySpace(root: int): Space {
    Space(root, map[], map[], map[])
  }

  lemma CreatedEmpty(m: Mem)
    requires MemOk(m) && m.free != []
    ensures Created(m, AsTable(GivenPage(m, Filled(5)), m.free[0]), EmptySpace(m.free[0]))
  {
    GivenOk(m, Filled(5));
    AddRemove(m.pages, m.free[0], Filled(5));
    var sp := EmptySpace(m.free[0]);
    assert Frames(sp) == {m.free[0]};
    forall a, b ensures Apart(sp, a, b) && NestedAt(sp, a) {
    }
  }

  lemma CreatedKept(m0: Mem, m1: Mem, sp1: Space, m2: Mem, sp2: Space)
    requires MemOk(m0) && Created(m0, m1, sp1) && Kept(m1, sp1, m2, sp2) && m2.pages == m1.pages
    ensures Created(m0, m2, sp2)
  {
    forall f | f in m0.tables ensures f !in FreeSet(m0) && m2.tables[f] == m0.tables[f] {
    }
  }

  lemma CreatedUnmapped(m0: Mem, m1: Mem, sp1: Space, m2: Mem, sp2: Space, first: int)
    requires Created(m0, m1, sp1) && UnmapState(m1, sp1, m2, sp2, first, 1, false)
    ensures Created(m0, m2, sp2)
  {
    assert Frames(sp2) == Frames(sp1);
  }

  lemma CreatedFreed(m0: Mem, m1: Mem, sp1: Space, m2: Mem)
    requires Created(m0, m1, sp1) && SpaceFreed(m1, sp1, 0, m2)
    ensures Restored(m0, m2)
  {
    assert PageFrames(sp1.leaf, 0, 0) == {} && m1.pages - {} == m1.pages;
    assert m2.tables.Keys == m0.tables.Keys;
    forall f | f in m2.tables ensures m2.tables[f] == m0.tables[f] {
      assert m2.tables[f] == m1.tables[f];
    }
  }

  /** What the two calls of `mappages` in `proc_pagetable` leave. */
  lemma OnePage(leaf: map<int, Pte>, v: int, k: nat, frame: int, perm: Flags)
    requires k <= 1
    ensures MapRange(leaf, v, k, frame, perm) == if k == 0 then leaf else leaf[v := Pte(frame, perm.(v := true))]
  {
    if k == 1 {
      assert MapRange(leaf, v, 0, frame, perm) == leaf;
    }
  }

  lemma NoUserPages(pages: map<int, seq<int>>, leaf: map<int, Pte>, first: int, k: int)
    requires k <= 0
    ensures Private(pages, leaf, first, k)
  {
    forall v, w ensures PrivateAt(pages, leaf, first, k, v, w) {
    }
  }

  lemma NewProcSpace(m: Mem, sp: Space)
    requires MemOk(m) && Rep(m.tables, sp) && sp.leaf.Keys == {TRAPFRAME / PGSIZE, TRAMPOLINE / PGSIZE}
             && KernelOnly(sp.leaf)
    ensures ProcSpace(m, sp, 0)
  {
    NoUserPages(m.pages, sp.leaf, 0, 0);
    forall v ensures v in sp.leaf <==> IsUserPage(v, 0) {
      assert v in sp.leaf <==> v in sp.leaf.Keys;
    }
  }

  // --- growing and shrinking -------------------------------------------------------------------------------

  /** Memory has moved between the free list and the space only. */
  ghost predicate Balanced(m0: Mem, sp0: Space, n0: int, m: Mem, sp: Space, n: int) {
    && Pool(m, sp, n) == Pool(m0, sp0, n0)
    && m.pages - PageFrames(sp.leaf, 0, n) == m0.pages - PageFrames(sp0.leaf, 0, n0)
    && m.tables.Keys - Frames(sp) == m0.tables.Keys - Frames(sp0)
    && (forall f :: f in m0.tables && f !in Frames(sp0) ==> f in m.tables && m.tables[f] == m0.tables[f])
  }

  lemma BalancedTrans(m0: Mem, sp0: Space, n0: int, m1: Mem, sp1: Space, n1: int, m2: Mem, sp2: Space, n2: int)
    requires Balanced(m0, sp0, n0, m1, sp1, n1) && Balanced(m1, sp1, n1, m2, sp2, n2)
    ensures Balanced(m0, sp0, n0, m2, sp2, n2)
  {
    forall f | f in m0.tables && f !in Frames(sp0) ensures f in m2.tables && m2.tables[f] == m0.tables[f] {
      assert f in m1.tables.Keys - Frames(sp1);
    }
  }

  lemma GrownFrames(leaf0: map<int, Pte>, leaf: map<int, Pte>, n: nat, k: nat)
    requires Dropped(leaf, n, k) == leaf0
    ensures PageFrames(leaf, 0, n + k) == PageFrames(leaf0, 0, n) + PageFrames(leaf, n, k)
  {
    forall v | v in leaf0 ensures v in leaf && leaf[v] == leaf0[v] {
      assert v in Dropped(leaf, n, k);
    }
    forall v | v in leaf && 0 <= v < n ensures v in leaf0 && leaf[v] == leaf0[v] {
      assert v in Dropped(leaf, n, k);
    }
  }

  lemma GrownPrivate(m0: Mem, sp0: Space, m: Mem, sp: Space, n: nat, k: nat, src: Source)
    requires Private(m0.pages, sp0.leaf, 0, n) && Built(m0, sp0, m, sp, n, k, src)
    ensures Private(m.pages, sp.leaf, 0, n + k)
  {
    var all := n + k;
    forall v, w ensures PrivateAt(m.pages, sp.leaf, 0, all, v, w) {
      assert PrivateAt(m0.pages, sp0.leaf, 0, n, v, w) && PrivateAt(m.pages, sp.leaf, n, k, v, w);
      OldOrNew(m0, sp0, m, sp, n, k, src, v);
      OldOrNew(m0, sp0, m, sp, n, k, src, w);
    }
  }

  /** An old page is on an old frame, a new one on a new frame. */
  lemma OldOrNew(m0: Mem, sp0: Space, m: Mem, sp: Space, n: nat, k: nat, src: Source, v: int)
    requires Private(m0.pages, sp0.leaf, 0, n) && Built(m0, sp0, m, sp, n, k, src)
    ensures v in sp.leaf && 0 <= v < n ==>
              v in sp0.leaf && sp0.leaf[v] == sp.leaf[v] && sp.leaf[v].frame in m0.pages && sp.leaf[v].frame in m.pages
    ensures v in sp.leaf && n <= v < n + k ==> sp.leaf[v].frame !in m0.pages
  {
    if v in sp.leaf && 0 <= v < n {
      assert v in Dropped(sp.leaf, n, k);
      assert PrivateAt(m0.pages, sp0.leaf, 0, n, v, v);
      OldPages(m0, sp0, m, sp, n, k, src, sp.leaf[v].frame);
    } else if v in sp.leaf && n <= v < n + k {
      assert sp.leaf[v].frame in PageFrames(sp.leaf, n, k);
    }
  }

  lemma GrownSpace(m0: Mem, sp0: Space, m: Mem, sp: Space, n: nat, k: nat, n': nat, src: Source)
    requires ProcSpace(m0, sp0, n) && Built(m0, sp0, m, sp, n, k, src) && n' == n + k && n' * PGSIZE <= TRAPFRAME
    ensures ProcSpace(m, sp, n')
  {
    GrownPrivate(m0, sp0, m, sp, n, k, src);
    BuiltMapped(m0, sp0, m, sp, n, k, src);
    forall v ensures v in sp.leaf <==> IsUserPage(v, n') {
      assert v in sp0.leaf <==> IsUserPage(v, n);
      assert v in Dropped(sp.leaf, n, k) <==> v in sp.leaf && !(n <= v < n + k);
    }
    KernelPagesKept(sp0.leaf, sp.leaf, n, k);
  }

  lemma KernelPagesKept(leaf0: map<int, Pte>, leaf: map<int, Pte>, n: nat, k: nat)
    requires Dropped(leaf, n, k) == leaf0 && KernelOnly(leaf0) && (n + k) * PGSIZE <= TRAPFRAME
    ensures KernelOnly(leaf)
  {
    assert TRAPFRAME / PGSIZE in leaf ==> TRAPFRAME / PGSIZE in Dropped(leaf, n, k);
    assert TRAMPOLINE / PGSIZE in leaf ==> TRAMPOLINE / PGSIZE in Dropped(leaf, n, k);
  }

  lemma PoolTables(m0: Mem, sp0: Space, m: Mem, sp: Space, taken: set<int>)
    requires MemOk(m0) && PoolKept(m0, sp0, m, sp, taken)
    ensures m.tables.Keys - Frames(sp) == m0.tables.Keys - Frames(sp0)
  {
    forall f | f in FreeSet(m0) ensures f !in m0.tables {
    }
  }

  lemma GrownBalance(m0: Mem, sp0: Space, m: Mem, sp: Space, n: nat, k: nat, n': nat, src: Source)
    requires MemOk(m0) && Built(m0, sp0, m, sp, n, k, src) && n' == n + k
    ensures Balanced(m0, sp0, n, m, sp, n')
  {
    var added, past := PageFrames(sp.leaf, n, k), PageFrames(sp0.leaf, 0, n);
    GrownFrames(sp0.leaf, sp.leaf, n, k);
    PoolTables(m0, sp0, m, sp, added);
    assert m.pages - (past + added) == (m.pages - added) - past;
  }

  /** There are fewer free pages than would fill the space up to the trapframe. */
  predicate FewPages(m: Mem, n: int) {
    |m.free| + n < TRAPFRAME / PGSIZE
  }

  /** As many pages as there are free can be added below the trapframe. */
  lemma RoomAbove(m: Mem, sp: Space, sz: nat, target: nat) returns (room: nat)
    requires ProcSpace(m, sp, PageCount(sz)) && sz <= target && FewPages(m, PageCount(sz))
    ensures PageCount(sz) <= PageCount(target) && Roomy(m, sp, PageCount(sz), PageCount(target) - PageCount(sz), room)
  {
    RoomLeft(sz, target);
    var n, left := PageCount(target) - PageCount(sz), TRAPFRAME / PGSIZE - PageCount(sz);
    room := if n <= left then n else left;
    forall v | PageCount(sz) <= v < PageCount(sz) + room ensures v !in sp.leaf {
      assert !IsUserPage(v, PageCount(sz));
    }
  }

  lemma UndoneSpace(m0: Mem, sp0: Space, m: Mem, sp: Space, n: nat)
    requires ProcSpace(m0, sp0, n) && Undone(m0, sp0, m, sp)
    ensures ProcSpace(m, sp, n) && Balanced(m0, sp0, n, m, sp, n)
  {
    assert PoolKept(m0, sp0, m, sp, {});
    PoolTables(m0, sp0, m, sp, {});
  }

  lemma ShrunkPrivate(pages: map<int, seq<int>>, leaf: map<int, Pte>, n: nat, k: nat)
    requires Private(pages, leaf, 0, n + k)
    ensures Private(pages - PageFrames(leaf, n, k), Dropped(leaf, n, k), 0, n)
  {
    var all, gone, left := n + k, PageFrames(leaf, n, k), Dropped(leaf, n, k);
    forall v, w ensures PrivateAt(pages - gone, left, 0, n, v, w) {
      assert PrivateAt(pages, leaf, 0, all, v, w);
      forall u | v in left && 0 <= v < n && u in leaf && n <= u < n + k ensures leaf[u].frame != leaf[v].frame {
        assert PrivateAt(pages, leaf, 0, all, v, u);
      }
    }
  }

  lemma Resized(m0: Mem, sp0: Space, m: Mem, sp: Space, n: nat, k: nat, n': nat, grown: bool)
    requires ProcSpace(m0, sp0, n) && n' == n + k && FewPages(m0, n)
    requires grown ==> Built(m0, sp0, m, sp, n, k, Zeroed(USER_RW))
    requires !grown ==> Undone(m0, sp0, m, sp)
    ensures grown ==> ProcSpace(m, sp, n') && Balanced(m0, sp0, n, m, sp, n') && PagesKept(m0, sp0, n, m, sp, n')
    ensures !grown ==> ProcSpace(m, sp, n) && Balanced(m0, sp0, n, m, sp, n) && PagesKept(m0, sp0, n, m, sp, n)
    ensures sp.root == sp0.root
  {
    if grown {
      GrownSpace(m0, sp0, m, sp, n, k, n', Zeroed(USER_RW));
      GrownBalance(m0, sp0, m, sp, n, k, n', Zeroed(USER_RW));
      GrownPages(m0, sp0, m, sp, n, k, n');
    } else {
      UndoneSpace(m0, sp0, m, sp, n);
      SamePages(m0, sp0, m, sp, n);
    }
  }

  /** The permissions of heap pages. */
  const USER_RW := Flags(true, true, true, false, true)

  /** A page below both sizes is on the same frame with the same permissions and bytes, and a new
      page is zero.  The trapframe and the trampoline stay. */
  predicate PageKept(pages0: map<int, seq<int>>, leaf0: map<int, Pte>, n0: int,
                     pages: map<int, seq<int>>, leaf: map<int, Pte>, n: int, v: int) {
    && (0 <= v < n && v < n0 ==>
          && v in leaf0 && v in leaf && leaf[v] == leaf0[v] && leaf[v].frame in pages0 && leaf[v].frame in pages
          && pages[leaf[v].frame] == pages0[leaf[v].frame])
    && (n0 <= v < n ==>
          v in leaf && leaf[v].flags == USER_RW && leaf[v].frame in pages && pages[leaf[v].frame] == Filled(0))
    && (v == TRAPFRAME / PGSIZE || v == TRAMPOLINE / PGSIZE ==> v in leaf0 && v in leaf && leaf[v] == leaf0[v])
  }

  ghost predicate PagesKept(m0: Mem, sp0: Space, n0: int, m: Mem, sp: Space, n: int) {
    forall v :: PageKept(m0.pages, sp0.leaf, n0, m.pages, sp.leaf, n, v)
  }

  lemma GrownPages(m0: Mem, sp0: Space, m: Mem, sp: Space, n: nat, k: nat, n': nat)
    requires ProcSpace(m0, sp0, n) && Built(m0, sp0, m, sp, n, k, Zeroed(USER_RW)) && n' == n + k
    requires n' * PGSIZE <= TRAPFRAME
    ensures PagesKept(m0, sp0, n, m, sp, n')
  {
    forall v ensures PageKept(m0.pages, sp0.leaf, n, m.pages, sp.leaf, n', v) {
      assert v in sp0.leaf <==> IsUserPage(v, n);
      assert v in Dropped(sp.leaf, n, k) <==> v in sp.leaf && !(n <= v < n + k);
      assert BuiltAt(m.pages, sp.leaf, n, k, Zeroed(USER_RW), v);
      if 0 <= v < n {
        OldOrNew(m0, sp0, m, sp, n, k, Zeroed(USER_RW), v);
        OldPages(m0, sp0, m, sp, n, k, Zeroed(USER_RW), sp0.leaf[v].frame);
      }
    }
  }

  lemma SamePages(m0: Mem, sp0: Space, m: Mem, sp: Space, n: nat)
    requires ProcSpace(m0, sp0, n) && sp.leaf == sp0.leaf && m.pages == m0.pages
    ensures PagesKept(m0, sp0, n, m, sp, n)
  {
    forall v ensures PageKept(m0.pages, sp0.leaf, n, m.pages, sp.leaf, n, v) {
      assert v in sp0.leaf <==> IsUserPage(v, n);
      assert PrivateAt(m0.pages, sp0.leaf, 0, n, v, v);
    }
  }

  lemma ShrunkPages(m0: Mem, sp0: Space, m: Mem, sp: Space, n: nat, k: nat, n0: nat)
    requires ProcSpace(m0, sp0, n0) && UnmapState(m0, sp0, m, sp, n, k, true) && n0 == n + k
    ensures PagesKept(m0, sp0, n0, m, sp, n)
  {
    forall v ensures PageKept(m0.pages, sp0.leaf, n0, m.pages, sp.leaf, n, v) {
      assert v in sp0.leaf <==> IsUserPage(v, n0);
      if 0 <= v < n {
        KeptFrame(m0.pages, sp0.leaf, n, k, n0, v);
      }
    }
  }

  lemma KeptFrame(pages: map<int, seq<int>>, leaf: map<int, Pte>, n: nat, k: nat, n0: nat, v: int)
    requires Private(pages, leaf, 0, n0) && n0 == n + k && v in leaf && 0 <= v < n
    ensures leaf[v].frame in pages && leaf[v].frame !in PageFrames(leaf, n, k)
  {
    assert PrivateAt(pages, leaf, 0, n0, v, v);
    forall u | u in leaf && n <= u < n + k ensures leaf[u].frame != leaf[v].frame {
      assert PrivateAt(pages, leaf, 0, n0, v, u);
    }
  }

  lemma ReadyToShrink(m: Mem, sp: Space, n: nat, k: nat)
    requires ProcSpace(m, sp, n + k)
    ensures Private(m.pages, sp.leaf, n, k) && AllMapped(sp.leaf, n, k)
  {
    var all := n + k;
    forall v, w ensures PrivateAt(m.pages, sp.leaf, n, k, v, w) {
      assert PrivateAt(m.pages, sp.leaf, 0, all, v, w);
    }
    forall v | n <= v < n + k ensures v in sp.leaf {
      assert IsUserPage(v, all);
    }
  }

  lemma ShrunkSpace(m0: Mem, sp0: Space, m: Mem, sp: Space, n: nat, k: nat)
    requires ProcSpace(m0, sp0, n + k) && UnmapState(m0, sp0, m, sp, n, k, true)
    ensures ProcSpace(m, sp, n)
  {
    forall v ensures v in sp.leaf <==> IsUserPage(v, n) {
      assert v in sp0.leaf <==> IsUserPage(v, n + k);
    }
    ShrunkPrivate(m0.pages, sp0.leaf, n, k);
  }

  lemma ShrunkBalance(m0: Mem, sp0: Space, m: Mem, sp: Space, n: nat, k: nat)
    requires UnmapState(m0, sp0, m, sp, n, k, true)
    ensures Balanced(m0, sp0, n + k, m, sp, n)
  {
    var gone, left := PageFrames(sp0.leaf, n, k), PageFrames(sp.leaf, 0, n);
    GrownFrames(sp.leaf, sp0.leaf, n, k);
    assert Frames(sp) == Frames(sp0);
    assert (m0.pages - gone) - left == m0.pages - (left + gone);
  }

  lemma BalancedStart(m: Mem, sp: Space, n: int)
    ensures Balanced(m, sp, n, m, sp, n)
  {
  }

  /** Freeing a space gives back all that was taken since it was made. */
  lemma LifeEnds(m0: Mem, m1: Mem, sp1: Space, m2: Mem, sp2: Space, n: nat, m3: Mem)
    requires Created(m0, m1, sp1) && Balanced(m1, sp1, 0, m2, sp2, n) && SpaceFreed(m2, sp2, n, m3)
    ensures Restored(m0, m3)
  {
    assert PageFrames(sp1.leaf, 0, 0) == {} && m1.pages - {} == m1.pages;
    assert m3.tables.Keys == m0.tables.Keys;
    forall f | f in m0.tables ensures m3.tables[f] == m0.tables[f] {
      assert f in m1.tables && f !in Frames(sp1);
    }
  }

  lemma {:induction false} ListCount(xs: seq<int>)
    requires forall i, j :: 0 <= i < j < |xs| ==> xs[i] != xs[j]
    ensures |set x | x in xs| == |xs|
  {
    if xs != [] {
      var rest, last := xs[..|xs| - 1], xs[|xs| - 1];
      ListCount(rest);
      assert (set x | x in xs) == (set x | x in rest) + {last};
    }
  }

  /** Pages on frames of their own have as many frames as there are pages. */
  lemma {:induction false} FramesCount(pages: map<int, seq<int>>, leaf: map<int, Pte>, n: nat)
    requires Private(pages, leaf, 0, n) && AllMapped(leaf, 0, n)
    ensures |PageFrames(leaf, 0, n)| == n
  {
    if n > 0 {
      var k := n - 1;
      forall v, w ensures PrivateAt(pages, leaf, 0, k, v, w) {
        assert PrivateAt(pages, leaf, 0, n, v, w);
      }
      FramesCount(pages, leaf, k);
      assert PageFrames(leaf, 0, n) == PageFrames(leaf, 0, k) + {leaf[k].frame};
      forall v | v in leaf && 0 <= v < k ensures leaf[v].frame != leaf[k].frame {
        assert PrivateAt(pages, leaf, 0, n, v, k);
      }
    }
  }

  lemma PartCount(a: set<int>, b: set<int>, all: set<int>)
    requires a !! b && a + b <= all
    ensures |a| + |b| <= |all|
  {
    assert all == (a + b) + (all - (a + b));
  }

  /** If the free pages and the pages of the space come from a short free list, there are few. */
  lemma FewLeft(m0: Mem, m: Mem, sp: Space, n: nat)
    requires MemOk(m0) && FewPages(m0, 0) && ProcSpace(m, sp, n)
    requires FreeSet(m) + PageFrames(sp.leaf, 0, n) <= FreeSet(m0)
    ensures FewPages(m, n)
  {
    ListCount(m0.free);
    ListCount(m.free);
    forall v | 0 <= v < n ensures v in sp.leaf {
      assert IsUserPage(v, n);
    }
    FramesCount(m.pages, sp.leaf, n);
    forall f | f in PageFrames(sp.leaf, 0, n) ensures f !in FreeSet(m) {
      var v :| v in sp.leaf && 0 <= v < n && f == sp.leaf[v].frame;
      assert PrivateAt(m.pages, sp.leaf, 0, n, v, v);
    }
    PartCount(FreeSet(m), PageFrames(sp.leaf, 0, n), FreeSet(m0));
  }

  lemma StillFew(m0: Mem, m1: Mem, sp1: Space, m: Mem, sp: Space, n: nat)
    requires MemOk(m0) && FewPages(m0, 0) && Created(m0, m1, sp1) && Balanced(m1, sp1, 0, m, sp, n)
             && ProcSpace(m, sp, n)
    ensures FewPages(m, n)
  {
    assert PageFrames(sp1.leaf, 0, 0) == {};
    FewLeft(m0, m, sp, n);
  }

  // --- copying to and from user memory ---------------------------------------------------------------------

  /** The program may use the byte at `va`. */
  predicate Reachable(sp: Space, va: nat) {
    va < MAXVA && va / PGSIZE in sp.leaf && sp.leaf[va / PGSIZE].flags.u
  }

  /** Pages that the program can use are memory, and no two are the same. */
  ghost predicate UserOk(m: Mem, sp: Space) {
    && MemOk(m) && Rep(m.tables, sp)
    && (forall v :: UserPageOk(m.pages, sp.leaf, v))
    && (forall v, w :: NoAlias(sp.leaf, v, w))
  }

  /** The address space of a process is one that bytes can be copied to and from. */
  lemma ProcIsUser(m: Mem, sp: Space, n: nat)
    requires ProcSpace(m, sp, n)
    ensures UserOk(m, sp)
  {
    forall v ensures UserPageOk(m.pages, sp.leaf, v) {
      assert v in sp.leaf <==> IsUserPage(v, n);
      assert PrivateAt(m.pages, sp.leaf, 0, n, v, v);
    }
    forall v, w ensures NoAlias(sp.leaf, v, w) {
      assert v in sp.leaf <==> IsUserPage(v, n);
      assert w in sp.leaf <==> IsUserPage(w, n);
      assert PrivateAt(m.pages, sp.leaf, 0, n, v, w);
    }
  }

  predicate UserPageOk(pages: map<int, seq<int>>, leaf: map<int, Pte>, v: int) {
    v in leaf && leaf[v].flags.u ==> leaf[v].frame in pages && |pages[leaf[v].frame]| == PGSIZE
  }

  predicate NoAlias(leaf: map<int, Pte>, v: int, w: int) {
    v in leaf && w in leaf && leaf[v].flags.u && leaf[w].flags.u && leaf[v].frame == leaf[w].frame ==> v == w
  }

  /** The byte that the flat map names. */
  function ByteAt(pages: map<int, seq<int>>, sp: Space, va: nat): int
    requires Reachable(sp, va) && UserPageOk(pages, sp.leaf, va / PGSIZE)
  {
    pages[sp.leaf[va / PGSIZE].frame][va % PGSIZE]
  }

  /** The bytes `bytes` are those at `va` and after. */
  ghost predicate Holds(pages: map<int, seq<int>>, sp: Space, va: nat, bytes: seq<int>) {
    forall i :: 0 <= i < |bytes| ==> HoldsAt(pages, sp, va + i, bytes[i])
  }

  predicate HoldsAt(pages: map<int, seq<int>>, sp: Space, va: nat, b: int) {
    Reachable(sp, va) && UserPageOk(pages, sp.leaf, va / PGSIZE) && b == ByteAt(pages, sp, va)
  }

  /** A chunk within one page. */
  lemma ChunkHolds(m: Mem, sp: Space, va: nat, done: seq<int>, n: nat)
    requires UserOk(m, sp) && Holds(m.pages, sp, va, done) && Reachable(sp, va + |done|)
             && (va + |done|) % PGSIZE + n <= PGSIZE
    ensures var page, off := sp.leaf[(va + |done|) / PGSIZE].frame, (va + |done|) % PGSIZE;
            && page in m.pages && |m.pages[page]| == PGSIZE
            && Holds(m.pages, sp, va, done + m.pages[page][off..off + n])
  {
    var cur := va + |done|;
    assert UserPageOk(m.pages, sp.leaf, cur / PGSIZE);
    var page, off := sp.leaf[cur / PGSIZE].frame, cur % PGSIZE;
    var all := done + m.pages[page][off..off + n];
    forall i | 0 <= i < |all| ensures HoldsAt(m.pages, sp, va + i, all[i]) {
      if i >= |done| {
        SamePage(cur, i - |done|);
        assert va + i == cur + (i - |done|);
      }
    }
  }

  lemma RoundedDown(m: Mem, sp: Space, va: nat)
    requires UserOk(m, sp)
    ensures var va0 := PgRoundDown(va);
            && va0 / PGSIZE == va / PGSIZE && (va0 < MAXVA <==> va < MAXVA) && va - va0 == va % PGSIZE
            && (Reachable(sp, va0) <==> Reachable(sp, va))
    ensures Reachable(sp, va) ==> sp.leaf[va / PGSIZE].frame in m.pages && sp.leaf[va / PGSIZE].frame >= 0
  {
    assert UserPageOk(m.pages, sp.leaf, va / PGSIZE);
  }

  lemma SamePage(va: nat, i: nat)
    requires va % PGSIZE + i < PGSIZE
    ensures (va + i) / PGSIZE == va / PGSIZE && (va + i) % PGSIZE == va % PGSIZE + i
    ensures va < MAXVA ==> va + i < MAXVA
  {
  }

  function Overwrite(page: seq<int>, off: nat, bytes: seq<int>): (r: seq<int>)
    requires off + |bytes| <= |page|
    ensures |r| == |page|
    ensures forall i :: 0 <= i < |page| ==> r[i] == if off <= i < off + |bytes| then bytes[i - off] else page[i]
  {
    page[..off] + bytes + page[off + |bytes|..]
  }

  /** The byte at `va` after `bytes` have been stored at `at`. */
  function After(pages: map<int, seq<int>>, sp: Space, at: nat, bytes: seq<int>, va: nat): int
    requires Reachable(sp, va) && UserPageOk(pages, sp.leaf, va / PGSIZE)
  {
    if at <= va < at + |bytes| then bytes[va - at] else ByteAt(pages, sp, va)
  }

  predicate StoredAt(pages0: map<int, seq<int>>, pages: map<int, seq<int>>, sp: Space, at: nat, bytes: seq<int>,
                     va: nat) {
    && (at <= va < at + |bytes| ==> Reachable(sp, va))
    && (Reachable(sp, va) ==>
          && UserPageOk(pages0, sp.leaf, va / PGSIZE) && UserPageOk(pages, sp.leaf, va / PGSIZE)
          && ByteAt(pages, sp, va) == After(pages0, sp, at, bytes, va))
  }

  /** A frame that no page of the program is on. */
  ghost predicate Foreign(leaf: map<int, Pte>, f: int) {
    forall v :: v in leaf && leaf[v].flags.u ==> leaf[v].frame != f
  }

  /** User memory has changed at `at` and after only, to `bytes`; nothing else has changed. */
  ghost predicate Stored(m0: Mem, m: Mem, sp: Space, at: nat, bytes: seq<int>) {
    && m.tables == m0.tables && m.free == m0.free && m.pages.Keys == m0.pages.Keys
    && (forall va: nat :: StoredAt(m0.pages, m.pages, sp, at, bytes, va))
    && (forall f :: f in m0.pages && Foreign(sp.leaf, f) ==> m.pages[f] == m0.pages[f])
  }

  lemma StoredNothing(m: Mem, sp: Space, at: nat)
    requires UserOk(m, sp)
    ensures Stored(m, m, sp, at, [])
  {
    forall va: nat ensures StoredAt(m.pages, m.pages, sp, at, [], va) {
      assert UserPageOk(m.pages, sp.leaf, va / PGSIZE);
    }
  }

  /** One `memmove` of `copyout`, within a page. */
  lemma StoreChunk(m: Mem, sp: Space, at: nat, bytes: seq<int>)
    requires UserOk(m, sp) && Reachable(sp, at) && at % PGSIZE + |bytes| <= PGSIZE
    ensures var f := sp.leaf[at / PGSIZE].frame;
            && f in m.pages && |m.pages[f]| == PGSIZE
            && var m' := m.(pages := m.pages[f := Overwrite(m.pages[f], at % PGSIZE, bytes)]);
            UserOk(m', sp) && Stored(m, m', sp, at, bytes)
  {
    var f := sp.leaf[at / PGSIZE].frame;
    assert UserPageOk(m.pages, sp.leaf, at / PGSIZE);
    var m' := m.(pages := m.pages[f := Overwrite(m.pages[f], at % PGSIZE, bytes)]);
    forall v ensures UserPageOk(m'.pages, sp.leaf, v) {
      assert UserPageOk(m.pages, sp.leaf, v);
    }
    forall va: nat ensures StoredAt(m.pages, m'.pages, sp, at, bytes, va) {
      assert UserPageOk(m.pages, sp.leaf, va / PGSIZE) && UserPageOk(m'.pages, sp.leaf, va / PGSIZE);
      assert NoAlias(sp.leaf, va / PGSIZE, at / PGSIZE);
      if at <= va < at + |bytes| {
        SamePage(at, va - at);
      }
    }
  }

  lemma StoredMore(m0: Mem, m1: Mem, m2: Mem, sp: Space, at: nat, done: seq<int>, bytes: seq<int>)
    requires Stored(m0, m1, sp, at, done) && Stored(m1, m2, sp, at + |done|, bytes)
    ensures Stored(m0, m2, sp, at, done + bytes)
  {
    var all := done + bytes;
    forall va: nat ensures StoredAt(m0.pages, m2.pages, sp, at, all, va) {
      assert StoredAt(m0.pages, m1.pages, sp, at, done, va) && StoredAt(m1.pages, m2.pages, sp, at + |done|, bytes, va);
    }
  }

  /** What was copied out is there to be copied in. */
  lemma StoredIsHeld(m0: Mem, m: Mem, sp: Space, at: nat, bytes: seq<int>)
    requires Stored(m0, m, sp, at, bytes)
    ensures Holds(m.pages, sp, at, bytes)
  {
    forall i | 0 <= i < |bytes| ensures HoldsAt(m.pages, sp, at + i, bytes[i]) {
      assert StoredAt(m0.pages, m.pages, sp, at, bytes, at + i);
    }
  }

  class Machine {
    var m: Mem

    /** `kinit`: the pages from the end of the kernel to the end of memory are free. */
    constructor (end: nat)
      requires KERNBASE <= end <= PHYSTOP
      ensures MemOk(m) && m.tables == map[] && m.pages == map[] && FewPages(m, 0)
      ensures forall f :: f in m.free <==> PageCount(end) <= f < PHYSTOP / PGSIZE
    {
      m := Mem(map[], map[], []);
      new;
      var f := PageCount(end);
      while f < PHYSTOP / PGSIZE
        invariant PageCount(end) <= f <= PHYSTOP / PGSIZE && |m.free| == f - PageCount(end)
        invariant MemOk(m) && m.tables == map[] && m.pages == map[]
        invariant forall g :: g in m.free <==> PageCount(end) <= g < f
      {
        ListedOk(m, f);
        m := m.(free := [f] + m.free);
        f := f + 1;
      }
    }

    /** Take a page from the free list; -1 when there is none. */
    method KAlloc() returns (f: int)
      requires MemOk(m)
      modifies this
      ensures MemOk(m) && m.tables == old(m).tables
      ensures f == -1 ==> old(m).free == [] && m == old(m)
      ensures f != -1 ==> old(m).free != [] && f == old(m).free[0] && f !in old(m).pages && f !in old(m).tables
      ensures f != -1 ==> m == GivenPage(old(m), Filled(5))
    {
      if m.free == [] {
        return -1;
      }
      GivenOk(m, Filled(5));
      f := m.free[0];
      m := m.(free := m.free[1..]);
      m := m.(pages := m.pages[f := Filled(5)]);
    }

    /** Put a new page-table page at index `i` of table `t`; -1 when there is no memory. */
    method NewPage(t: int, i: int, ghost sp: Space, ghost v: nat, ghost level: int) returns (f: int)
      requires MemOk(m) && Rep(m.tables, sp) && (level == 1 || level == 2) && Reached(sp, v, level, t)
               && v / 512 / 512 < 512
      requires t in m.tables && |m.tables[t]| == 512 && i == Digit(v, level) && 0 <= i < 512 && !m.tables[t][i].flags.v
      modifies this
      ensures f == -1 ==> m == old(m) && |m.free| == 0
      ensures f != -1 ==>
                Kept(old(m), sp, m, Extended(sp, v, level, f)) && Reached(Extended(sp, v, level, f), v, level - 1, f)
      ensures m.pages == old(m).pages
    {
      ghost var before := m;
      f := KAlloc();
      if f == -1 {
        return;
      }
      TakenAsTable(before, t, i);
      WalkGrows(before, sp, v, level, t);
      m := AsTable(m, f);
      m := SetEntry(m, t, i, Branch(f));
    }

    /** Find the table that holds the entry of a page, adding missing tables if asked to. */
    method Walk(root: int, va: nat, alloc: bool, ghost sp: Space) returns (ok: bool, t: int, ghost sp': Space)
      requires MemOk(m) && Rep(m.tables, sp) && sp.root == root && va < MAXVA
      modifies this
      ensures Kept(old(m), sp, m, sp') && sp'.leaf == sp.leaf && m.pages == old(m).pages
      ensures ok ==> Reached(sp', va / PGSIZE, 0, t)
      ensures !alloc ==> m == old(m) && sp' == sp && (ok <==> va / PGSIZE / 512 in sp.low)
      ensures alloc && !ok ==> |m.free| == 0
    {
      ghost var v := va / PGSIZE;
      AddressDigits(va);
      KeptSame(m, sp);
      t, sp', ok := root, sp, false;
      var level := 2;
      while level > 0
        invariant 0 <= level <= 2 && Reached(sp', v, level, t)
        invariant Kept(old(m), sp, m, sp') && sp'.leaf == sp.leaf && m.pages == old(m).pages
        invariant !alloc ==> m == old(m) && sp' == sp
      {
        var i := Px(level, va);
        WalkReads(m.tables, sp', v, level, t);
        if m.tables[t][i].flags.v {
          t := m.tables[t][i].frame;
        } else {
          if !alloc {
            return;
          }
          ghost var before := m;
          var f := NewPage(t, i, sp', v, level);
          if f == -1 {
            return;
          }
          KeptTrans(old(m), sp, before, sp', m, Extended(sp', v, level, f));
          sp' := Extended(sp', v, level, f);
          t := f;
        }
        level := level - 1;
      }
      ok := true;
    }

    /** One round of `mappages`. */
    method MapOne(root: int, a: nat, frame: int, perm: Flags, ghost sp: Space) returns (r: Outcome, ghost sp': Space)
      requires MemOk(m) && Rep(m.tables, sp) && sp.root == root && a < MAXVA
      requires perm.r || perm.w || perm.x
      modifies this
      ensures Kept(old(m), sp, m, sp') && m.pages == old(m).pages
      ensures MapEffect(sp.leaf, a / PGSIZE, frame, perm, r, sp'.leaf)
      ensures r == NoMemory ==> |m.free| == 0
    {
      var ok, t, sp1 := Walk(root, a, true, sp);
      sp' := sp1;
      if !ok {
        return NoMemory, sp';
      }
      LeafReads(m.tables, sp', a / PGSIZE);
      AddressDigits(a);
      if m.tables[t][Px(0, a)].flags.v {
        return Panic, sp';
      }
      ghost var m1 := m;
      var pte := Pte(frame, perm.(v := true));
      LeafKept(m, sp', a / PGSIZE, pte);
      m := SetEntry(m, t, Px(0, a), pte);
      sp' := sp'.(leaf := sp'.leaf[a / PGSIZE := pte]);
      KeptTrans(old(m), sp, m1, sp1, m, sp');
      return Done, sp';
    }

    /** The same, as round `k` of the loop that started from `m0` and `sp0`. */
    method MapNext(root: int, a: nat, f: int, perm: Flags, ghost sp: Space,
                   ghost m0: Mem, ghost sp0: Space, ghost first: int, ghost k: nat, ghost frame: int)
      returns (r: Outcome, ghost sp': Space, ghost k': nat)
      requires MemOk(m0) && MapState(m0, sp0, m, sp, first, k, frame, perm) && sp0.root == root
      requires a < MAXVA && a == (first + k) * PGSIZE && f == frame + k && (perm.r || perm.w || perm.x)
      modifies this
      ensures MapState(m0, sp0, m, sp', first, k', frame, perm) && k' == if r == Done then k + 1 else k
      ensures r == NoMemory ==> |m.free| == 0
      ensures r == Panic ==> first + k in sp0.leaf
    {
      PageAt(a, first + k);
      r, sp' := MapOne(root, a, f, perm, sp);
      k' := if r == Done then k + 1 else k;
      MapRound(sp0.leaf, first, k, frame, perm, sp.leaf, a / PGSIZE, f, r, sp'.leaf);
      KeptTrans(m0, sp0, old(m), sp, m, sp');
    }

    /** Map the pages of `[va, va + size)` to the frames from `frame` on. */
    method MapPages(root: int, va: nat, size: nat, frame: int, perm: Flags, ghost sp: Space, ghost first: nat,
                    ghost n: nat)
      returns (r: Outcome, ghost sp': Space, ghost k: nat)
      requires MemOk(m) && Rep(m.tables, sp) && sp.root == root && va + size <= MAXVA
      requires first == va / PGSIZE && n == (if size == 0 then 0 else PagesIn(va, size)) && (perm.r || perm.w || perm.x)
      modifies this
      ensures MapState(old(m), sp, m, sp', first, k, frame, perm)
      ensures r == Done ==> size > 0 && k == n
      ensures r == NoMemory ==> k < n && |m.free| == 0
      ensures r == Panic ==> size == 0 || (k < n && first + k in sp.leaf)
    {
      if size == 0 {
        KeptSame(m, sp);
        return Panic, sp, 0;
      }
      RangeOf(va, size);
      r, sp', k := MapLoop(root, PgRoundDown(va), PgRoundDown(va + size - 1), frame, perm, sp, first, n);
    }

    /** One turn of the loop; `more` says whether there is another. */
    method MapTurn(root: int, a: nat, f: int, last: nat, perm: Flags, ghost sp: Space, ghost m0: Mem, ghost sp0: Space,
                   ghost first: nat, ghost k: nat, ghost n: nat, ghost frame: int)
      returns (r: Outcome, ghost sp': Space, ghost k': nat, more: bool)
      requires MemOk(m0) && MapState(m0, sp0, m, sp, first, k, frame, perm) && sp0.root == root
      requires Upcoming(a, f, first, k, n, frame) && last == (first + n - 1) * PGSIZE < MAXVA
      requires perm.r || perm.w || perm.x
      modifies this
      ensures MapState(m0, sp0, m, sp', first, k', frame, perm)
      ensures if more then k' == k + 1 && Upcoming(a + PGSIZE, f + 1, first, k', n, frame)
              else MapEnds(r, m, sp0, first, k', n)
    {
      r, sp', k' := MapNext(root, a, f, perm, sp, m0, sp0, first, k, frame);
      more := r == Done && a != last;
    }

    /** The loop of `mappages`, from the page at `va` to the page at `last`. */
    method MapLoop(root: int, va: nat, last: nat, frame: int, perm: Flags, ghost sp: Space, ghost first: nat,
                   ghost n: nat)
      returns (r: Outcome, ghost sp': Space, ghost k: nat)
      requires MemOk(m) && Rep(m.tables, sp) && sp.root == root && (perm.r || perm.w || perm.x)
      requires va == first * PGSIZE && n > 0 && last == (first + n - 1) * PGSIZE < MAXVA
      modifies this
      ensures MapState(old(m), sp, m, sp', first, k, frame, perm)
      ensures MapEnds(r, m, sp, first, k, n)
    {
      r, sp', k := Done, sp, 0;
      KeptSame(m, sp);
      var a, f, more := va, frame, true;
      while more
        invariant MapState(old(m), sp, m, sp', first, k, frame, perm)
        invariant if more then Upcoming(a, f, first, k, n, frame) else MapEnds(r, m, sp, first, k, n)
        decreases if more then n - k + 1 else 0
      {
        r, sp', k, more := MapTurn(root, a, f, last, perm, sp', old(m), sp, first, k, n, frame);
        a, f := a + PGSIZE, f + 1;
      }
    }

    method KFree(f: int)
      requires MemOk(m) && (f in m.pages || f in m.tables)
      modifies this
      ensures m == Freed(old(m), f) && MemOk(m)
    {
      FreedOk(m, f);
      m := m.(pages := m.pages - {f}, tables := m.tables - {f});
      m := m.(free := [f] + m.free);
    }

    /** One round of `uvmunmap`. */
    method UnmapOne(root: int, a: nat, doFree: bool, ghost sp: Space) returns (ok: bool)
      requires MemOk(m) && Rep(m.tables, sp) && sp.root == root && a < MAXVA
      requires doFree && a / PGSIZE in sp.leaf ==> sp.leaf[a / PGSIZE].frame in m.pages
      modifies this
      ensures ok <==> a / PGSIZE in sp.leaf
      ensures !ok ==> m == old(m)
      ensures ok ==> UnmapState(old(m), sp, m, sp.(leaf := sp.leaf - {a / PGSIZE}), a / PGSIZE, 1, doFree)
    {
      var found, t, _ := Walk(root, a, false, sp);
      assert NestedAt(sp, a / PGSIZE);
      if !found {
        return false;
      }
      LeafReads(m.tables, sp, a / PGSIZE);
      AddressDigits(a);
      var pte := m.tables[t][Px(0, a)];
      if !pte.flags.v || !IsLeaf(pte) {
        return false;
      }
      ghost var m0 := m;
      Unmapped1(m, sp, a / PGSIZE, doFree);
      if doFree {
        KFree(pte.frame);
      }
      m := SetEntry(m, t, Px(0, a), ZERO);
      assert m == WithoutPage(m0, sp, a / PGSIZE, doFree);
      return true;
    }

    /** The same, as round `k` of the loop that started from `m0` and `sp0`. */
    method UnmapNext(root: int, a: nat, doFree: bool, ghost sp: Space, ghost m0: Mem, ghost sp0: Space,
                     ghost first: int, ghost k: nat, ghost n: int)
      returns (ok: bool, ghost sp': Space)
      requires UnmapState(m0, sp0, m, sp, first, k, doFree) && sp0.root == root && a < MAXVA
               && a / PGSIZE == first + k && k < n
      requires doFree ==> Private(m0.pages, sp0.leaf, first, n)
      modifies this
      ensures ok <==> first + k in sp0.leaf
      ensures ok ==> UnmapState(m0, sp0, m, sp', first, k + 1, doFree)
      ensures !ok ==> UnmapState(m0, sp0, m, sp', first, k, doFree)
    {
      if doFree && first + k in sp0.leaf {
        StillOwned(m0.pages, sp0.leaf, first, k, n);
      }
      sp' := sp;
      ok := UnmapOne(root, a, doFree, sp);
      if ok {
        sp' := sp.(leaf := sp.leaf - {first + k});
        UnmapTrans(m0, sp0, old(m), sp, m, sp', first, k, doFree);
      }
    }

    /** Remove `npages` mappings from `va` on.  Returns false where the code panics. */
    method UvmUnmap(root: int, va: nat, npages: nat, doFree: bool, ghost sp: Space)
      returns (ok: bool, ghost sp': Space, ghost k: nat)
      requires MemOk(m) && Rep(m.tables, sp) && sp.root == root && va + npages * PGSIZE <= MAXVA
      requires doFree ==> Private(m.pages, sp.leaf, va / PGSIZE, npages)
      modifies this
      ensures UnmapState(old(m), sp, m, sp', va / PGSIZE, k, doFree)
      ensures ok <==> va % PGSIZE == 0 && AllMapped(sp.leaf, va / PGSIZE, npages)
      ensures ok ==> k == npages
    {
      sp', k := sp, 0;
      ghost var first := va / PGSIZE;
      UnmapStart(m, sp, first, doFree);
      if va % PGSIZE != 0 {
        return false, sp', k;
      }
      var a := va;
      ok := true;
      while a < va + npages * PGSIZE
        invariant ok && k <= npages && a == (first + k) * PGSIZE
        invariant UnmapState(old(m), sp, m, sp', first, k, doFree) && AllMapped(sp.leaf, first, k)
        decreases npages - k
      {
        assert a / PGSIZE == first + k;
        ok, sp' := UnmapNext(root, a, doFree, sp', old(m), sp, first, k, npages);
        if !ok {
          break;
        }
        k := k + 1;
        a := a + PGSIZE;
      }
    }

    /** One round of the loops of `uvmalloc` and `uvmcopy`: a page with the given contents.  When
        there is no memory for the page or its tables, the page is given back. */
    method AddPage(root: int, a: nat, flags: Flags, data: seq<int>, ghost sp: Space, ghost v: int, ghost want: Want)
      returns (ok: bool, ghost sp': Space, ghost f: int)
      requires MemOk(m) && Rep(m.tables, sp) && sp.root == root && a < MAXVA && a == v * PGSIZE && v !in sp.leaf
      requires flags.v && (flags.r || flags.w || flags.x) && |data| == PGSIZE && want == Want(flags, data)
      modifies this
      ensures MayAdd(old(m), sp, m, sp', v, f, want, ok)
      ensures !ok ==> |m.free| <= 1
    {
      sp' := sp;
      var mem := KAlloc();
      f := mem;
      if mem == -1 {
        KeptSame(m, sp);
        return false, sp', f;
      }
      m := m.(pages := m.pages[mem := data]);
      GivenOk(old(m), data);
      ok, sp' := MapNew(root, a, flags, mem, sp, v, want, old(m));
    }

    /** Map the page that was just taken, or give it back. */
    method MapNew(root: int, a: nat, flags: Flags, mem: int, ghost sp: Space, ghost v: int, ghost want: Want,
                  ghost m0: Mem)
      returns (ok: bool, ghost sp': Space)
      requires MemOk(m0) && m0.free != [] && mem == m0.free[0] && MemOk(m) && |want.data| == PGSIZE
               && m == GivenPage(m0, want.data)
      requires Rep(m.tables, sp) && sp.root == root && a < MAXVA && a == v * PGSIZE && v !in sp.leaf
      requires flags.v && (flags.r || flags.w || flags.x) && want.flags == flags
      modifies this
      ensures ok ==> Added(m0, sp, m, sp', v, mem, want)
      ensures !ok ==> Kept(m0, sp, m, sp') && sp'.leaf == sp.leaf && m.pages == m0.pages && |m.free| <= 1
    {
      PageAt(a, v);
      var r, sp1, k := MapPages(root, a, PGSIZE, mem, flags, sp, v, 1);
      sp' := sp1;
      if r != Done {
        assert k == 0 && |m.free| == 0;
        GivenBack(m0, sp, m, sp', v, k, flags, want.data);
        KFree(mem);
        return false, sp';
      }
      AddedFrom(m0, sp, m, sp', v, flags, want.data);
      return true, sp';
    }

    /** Shrink from `oldsz` to `newsz`.  Returns false where the code panics. */
    method UvmDealloc(root: int, oldsz: nat, newsz: nat, ghost sp: Space) returns (ok: bool, r: nat, ghost sp': Space)
      requires MemOk(m) && Rep(m.tables, sp) && sp.root == root && PgRoundUp(oldsz) <= MAXVA
      requires Private(m.pages, sp.leaf, PageCount(newsz), PageCount(oldsz) - PageCount(newsz))
      requires AllMapped(sp.leaf, PageCount(newsz), PageCount(oldsz) - PageCount(newsz))
      modifies this
      ensures ok && r == if newsz < oldsz then newsz else oldsz
      ensures newsz >= oldsz ==> m == old(m) && sp' == sp
      ensures newsz < oldsz ==> UnmapState(old(m), sp, m, sp', PageCount(newsz), PageCount(oldsz) - PageCount(newsz),
                                           true)
    {
      sp' := sp;
      if newsz >= oldsz {
        return true, oldsz, sp';
      }
      ghost var first, n := PageCount(newsz), PageCount(oldsz) - PageCount(newsz);
      PagesBetween(newsz, oldsz, first, n);
      UnmapStart(m, sp, first, true);
      if PgRoundUp(newsz) < PgRoundUp(oldsz) {
        var npages := (PgRoundUp(oldsz) - PgRoundUp(newsz)) / PGSIZE;
        ghost var k;
        ok, sp', k := UvmUnmap(root, PgRoundUp(newsz), npages, true, sp);
      }
      return true, newsz, sp';
    }

    /** One round of the loops of `uvmalloc` and `uvmcopy`, as round `k` from `m0` and `sp0`. */
    method AddNext(root: int, a: nat, flags: Flags, data: seq<int>, ghost sp: Space,
                   ghost m0: Mem, ghost sp0: Space, ghost first: int, ghost k: nat, ghost src: Source)
      returns (ok: bool, ghost sp': Space, ghost k': nat)
      requires MemOk(m0) && Built(m0, sp0, m, sp, first, k, src) && sp0.root == root
      requires a < MAXVA && a == (first + k) * PGSIZE && first + k !in sp0.leaf
      requires Offers(src, first + k) && Wanted(src, first + k) == Want(flags, data) && |data| == PGSIZE
      requires flags.v && (flags.r || flags.w || flags.x)
      modifies this
      ensures Built(m0, sp0, m, sp', first, k', src) && k' == if ok then k + 1 else k
      ensures !ok ==> |m.free| <= 1
    {
      ghost var v, want := first + k, Wanted(src, first + k);
      StillUnmapped(sp0.leaf, sp.leaf, first, k, v);
      ghost var f;
      ok, sp', f := AddPage(root, a, flags, data, sp, v, want);
      k' := if ok then k + 1 else k;
      BuiltNext(m0, sp0, old(m), sp, m, sp', first, k, k', v, f, want, src, ok);
    }

    /** The failure path of `uvmalloc`: back from `a` to `o`. */
    method Shrink(root: int, a: nat, o: nat, ghost sp: Space, ghost m0: Mem, ghost sp0: Space,
                  ghost first: nat, ghost k: nat, ghost src: Source)
      returns (ghost sp': Space)
      requires MemOk(m0) && Rep(m0.tables, sp0) && Built(m0, sp0, m, sp, first, k, src) && sp0.root == root
      requires o == first * PGSIZE && a == (first + k) * PGSIZE && a <= MAXVA && |m.free| <= 1
      modifies this
      ensures Undone(m0, sp0, m, sp') && |m.free| <= k + 1
    {
      BuiltMapped(m0, sp0, m, sp, first, k, src);
      assert PageCount(o) == first && PageCount(a) == first + k;
      var _, _, sp1 := UvmDealloc(root, a, o, sp);
      sp' := sp1;
      if k > 0 {
        UndoBuilt(m0, sp0, old(m), sp, m, sp', first, k, src);
      } else {
        NothingBuilt(m0, sp0, m, sp', first, src);
      }
    }

    /** One round of `uvmalloc`. */
    method AllocNext(root: int, a: nat, o: nat, flags: Flags, ghost sp: Space, ghost m0: Mem, ghost sp0: Space,
                     ghost first: nat, ghost k: nat)
      returns (ok: bool, ghost sp': Space)
      requires MemOk(m0) && Rep(m0.tables, sp0) && Built(m0, sp0, m, sp, first, k, Zeroed(flags)) && sp0.root == root
      requires o == first * PGSIZE && a == (first + k) * PGSIZE && a < MAXVA && first + k !in sp0.leaf
      requires flags.v && (flags.r || flags.w || flags.x)
      modifies this
      ensures ok ==> Built(m0, sp0, m, sp', first, k + 1, Zeroed(flags))
      ensures !ok ==> Undone(m0, sp0, m, sp') && |m.free| <= k + 1
    {
      ghost var k';
      ok, sp', k' := AddNext(root, a, flags, Filled(0), sp, m0, sp0, first, k, Zeroed(flags));
      if !ok {
        sp' := Shrink(root, a, o, sp', m0, sp0, first, k, Zeroed(flags));
      }
    }

    /** The loop of `uvmalloc`, which makes `n` pages from address `o` on. */
    method AllocLoop(root: int, o: nat, newsz: nat, flags: Flags, ghost sp: Space, ghost first: nat, ghost n: nat,
                     ghost room: nat)
      returns (ok: bool, ghost sp': Space)
      requires MemOk(m) && Rep(m.tables, sp) && sp.root == root
      requires o == first * PGSIZE && newsz <= (first + n) * PGSIZE && (n > 0 ==> (first + n - 1) * PGSIZE < newsz)
      requires Roomy(m, sp, first, n, room) && flags.v && (flags.r || flags.w || flags.x)
      modifies this
      ensures ok ==> Built(old(m), sp, m, sp', first, n, Zeroed(flags))
      ensures !ok ==> Undone(old(m), sp, m, sp') && |m.free| <= n
    {
      ghost var k := 0;
      sp' := sp;
      BuiltStart(m, sp, first, Zeroed(flags));
      var a := o;
      while a < newsz
        invariant 0 <= k <= n && a == (first + k) * PGSIZE
        invariant Built(old(m), sp, m, sp', first, k, Zeroed(flags))
        decreases n - k
      {
        assert k < room && first + k !in sp.leaf;
        ghost var sp1;
        ok, sp1 := AllocNext(root, a, o, flags, sp', old(m), sp, first, k);
        if !ok {
          return false, sp1;
        }
        sp' := sp1;
        k := k + 1;
        a := a + PGSIZE;
      }
      assert k == n;
      return true, sp';
    }

    /** Grow from `oldsz` to `newsz` with zeroed pages; 0 when memory runs out, and then every
        page is given back. */
    method UvmAlloc(root: int, oldsz: nat, newsz: nat, w: bool, x: bool, ghost sp: Space, ghost room: nat)
      returns (r: nat, ghost sp': Space, ghost grown: bool)
      requires MemOk(m) && Rep(m.tables, sp) && sp.root == root
      requires Roomy(m, sp, PageCount(oldsz), PageCount(newsz) - PageCount(oldsz), room)
      modifies this
      ensures newsz < oldsz ==> r == oldsz && m == old(m) && sp' == sp
      ensures newsz >= oldsz ==> r == if grown then newsz else 0
      ensures newsz >= oldsz && grown ==>
                Built(old(m), sp, m, sp', PageCount(oldsz), PageCount(newsz) - PageCount(oldsz),
                      Zeroed(Flags(true, true, w, x, true)))
      ensures newsz >= oldsz && !grown ==> Undone(old(m), sp, m, sp') && |m.free| <= PageCount(newsz) - PageCount(oldsz)
    {
      sp', grown := sp, true;
      if newsz < oldsz {
        return oldsz, sp', grown;
      }
      RoomLeft(oldsz, newsz);
      var flags := Flags(true, true, w, x, true);
      var ok, sp1 := AllocLoop(root, PgRoundUp(oldsz), newsz, flags, sp, PageCount(oldsz),
                               PageCount(newsz) - PageCount(oldsz), room);
      return if ok then newsz else 0, sp1, ok;
    }

    /** The failure path of `uvmcopy`. */
    method GiveBack(root: int, i: nat, ghost sp: Space, ghost m0: Mem, ghost sp0: Space, ghost k: nat,
                    ghost src: Source)
      returns (ghost sp': Space)
      requires MemOk(m0) && Rep(m0.tables, sp0) && Built(m0, sp0, m, sp, 0, k, src) && sp0.root == root
               && i == k * PGSIZE && i <= MAXVA
      requires |m.free| <= 1
      modifies this
      ensures Undone(m0, sp0, m, sp') && |m.free| <= k + 1
    {
      BuiltMapped(m0, sp0, m, sp, 0, k, src);
      PageAt(i, k);
      PageAt(0, 0);
      var _, sp1, _ := UvmUnmap(root, 0, i / PGSIZE, true, sp);
      sp' := sp1;
      UndoBuilt(m0, sp0, old(m), sp, m, sp', 0, k, src);
    }

    /** One round of `uvmcopy`: copy page `a` of the old space. */
    method CopyNext(oldRoot: int, newRoot: int, a: nat, ghost from: Space, ghost sp: Space, ghost m0: Mem,
                    ghost sp0: Space, ghost k: nat)
      returns (r: Outcome, ghost sp': Space)
      requires MemOk(m0) && Rep(m0.tables, from) && Rep(m0.tables, sp0) && from.root == oldRoot && sp0.root == newRoot
               && Frames(from) !! Frames(sp0)
      requires Built(m0, sp0, m, sp, 0, k, CopyOf(from.leaf, m0.pages))
      requires a < MAXVA && a == k * PGSIZE && k !in sp0.leaf && (k in from.leaf ==> from.leaf[k].frame in m0.pages)
      modifies this
      ensures r == Done ==> Built(m0, sp0, m, sp', 0, k + 1, CopyOf(from.leaf, m0.pages))
      ensures r == NoMemory ==> Undone(m0, sp0, m, sp') && |m.free| <= k + 1
      ensures r == Panic ==> k !in from.leaf
    {
      sp' := sp;
      OtherSpaceKept(m0, sp0, m, sp, PageFrames(sp.leaf, 0, k), from);
      var found, t, _ := Walk(oldRoot, a, false, from);
      assert NestedAt(from, k);
      if !found {
        return Panic, sp';
      }
      LeafReads(m.tables, from, k);
      AddressDigits(a);
      var pte := m.tables[t][Px(0, a)];
      if !pte.flags.v {
        return Panic, sp';
      }
      OldPages(m0, sp0, m, sp, 0, k, CopyOf(from.leaf, m0.pages), pte.frame);
      var ok, sp1, _ :=
        AddNext(newRoot, a, pte.flags, m.pages[pte.frame], sp, m0, sp0, 0, k, CopyOf(from.leaf, m0.pages));
      if ok {
        return Done, sp1;
      }
      sp' := GiveBack(newRoot, a, sp1, m0, sp0, k, CopyOf(from.leaf, m0.pages));
      return NoMemory, sp';
    }

    /** Copy the pages of a process of size `sz` into a new space; when memory runs out, every
        page is given back. */
    method UvmCopy(oldRoot: int, newRoot: int, sz: nat, ghost from: Space, ghost sp: Space)
        returns (r: Outcome, ghost sp': Space)
      requires MemOk(m) && Rep(m.tables, from) && Rep(m.tables, sp) && from.root == oldRoot && sp.root == newRoot
      requires Frames(from) !! Frames(sp) && PgRoundUp(sz) <= MAXVA
      requires Unmapped(sp.leaf, 0, PageCount(sz)) && Private(m.pages, from.leaf, 0, PageCount(sz))
      modifies this
      ensures r == Done ==> Built(old(m), sp, m, sp', 0, PageCount(sz), CopyOf(from.leaf, old(m).pages))
      ensures r == NoMemory ==> Undone(old(m), sp, m, sp') && |m.free| <= PageCount(sz)
      ensures r == Panic ==> !AllMapped(from.leaf, 0, PageCount(sz))
    {
      ghost var n, k := PageCount(sz), 0;
      ghost var src := CopyOf(from.leaf, m.pages);
      sp' := sp;
      BuiltStart(m, sp, 0, src);
      var i := 0;
      while i < sz
        invariant 0 <= k <= n && i == k * PGSIZE
        invariant Built(old(m), sp, m, sp', 0, k, src)
        decreases n - k
      {
        assert k < n;
        assert PrivateAt(old(m).pages, from.leaf, 0, n, k, k);
        r, sp' := CopyNext(oldRoot, newRoot, i, from, sp', old(m), sp, k);
        if r != Done {
          return;
        }
        k := k + 1;
        i := i + PGSIZE;
      }
      return Done, sp';
    }

    /** Free the tables of the subtree of `t`.  Returns false where the code panics: a leaf is
        still there. */
    method FreeWalk(t: int, ghost level: int, ghost key: int, ghost sp: Space) returns (ok: bool)
      requires MemOk(m) && SpaceOk(sp) && 0 <= key && IsNode(sp, level, key, t) && SubRep(m.tables, sp, level, key)
      modifies this
      ensures sp.leaf == map[] ==> ok
      ensures ok ==> FreedTables(old(m), m, SubFrames(sp, level, key))
      decreases level, 2
    {
      ghost var m0 := m;
      NodeEntries(m.tables, sp, level, key, t);
      WalkStart(m, sp, level, key, t);
      var i := 0;
      while i < 512
        invariant 0 <= i <= 512 && WalkState(m0, m, sp, level, key, t, i)
      {
        ok := FreeSlot(t, i, m0, level, key, sp);
        if !ok {
          return;
        }
        i := i + 1;
      }
      FreeRoot(m0, m, sp, level, key, t);
      KFree(t);
      return true;
    }

    /** One turn of the loop: a leaf is a panic. */
    method FreeSlot(t: int, i: int, ghost m0: Mem, ghost level: int, ghost key: int, ghost sp: Space)
      returns (ok: bool)
      requires SpaceOk(sp) && SubRep(m0.tables, sp, level, key) && 0 <= key && IsNode(sp, level, key, t)
      requires WalkState(m0, m, sp, level, key, t, i) && 0 <= i < 512 && |m0.tables[t]| == 512
      modifies this
      ensures sp.leaf == map[] ==> ok
      ensures ok ==> WalkState(m0, m, sp, level, key, t, i + 1)
      decreases level, 1
    {
      var pte := m.tables[t][i];
      NodeEntries(m0.tables, sp, level, key, t);
      EntryMeans(sp, level, key, i);
      if pte.flags.v && !IsLeaf(pte) {
        ok := FreeEntry(t, i, pte.frame, m0, level, key, sp);
      } else if pte.flags.v {
        ok := false;
      } else {
        WalkSkip(m0, m, sp, level, key, t, i);
        ok := true;
      }
    }

    /** Free what is below entry `i` of table `t`, and clear the entry. */
    method FreeEntry(t: int, i: int, child: int, ghost m0: Mem, ghost level: int, ghost key: int, ghost sp: Space)
        returns (ok: bool)
      requires SpaceOk(sp) && SubRep(m0.tables, sp, level, key) && 0 <= key && IsNode(sp, level, key, t)
      requires WalkState(m0, m, sp, level, key, t, i) && 0 <= i < 512 && |m0.tables[t]| == 512
      requires HasChild(sp, level, key, i) && IsNode(sp, level - 1, key * 512 + i, child)
      modifies this
      ensures sp.leaf == map[] ==> ok
      ensures ok ==> WalkState(m0, m, sp, level, key, t, i + 1)
      decreases level, 0
    {
      ChildRep(m0, m, sp, level, key, t, i);
      ok := FreeWalk(child, level - 1, key * 512 + i, sp);
      if ok {
        WalkChild(m0, old(m), m, sp, level, key, t, i);
        m := SetEntry(m, t, i, ZERO);
      }
    }

    /** Free the user memory of size `sz` and the tables.  Returns false where the code panics. */
    method UvmFree(root: int, sz: nat, ghost sp: Space) returns (ok: bool)
      requires MemOk(m) && Rep(m.tables, sp) && sp.root == root && PgRoundUp(sz) <= MAXVA
      requires forall v :: v in sp.leaf <==> 0 <= v < PageCount(sz)
      requires Private(m.pages, sp.leaf, 0, PageCount(sz))
      modifies this
      ensures ok && SpaceFreed(old(m), sp, PageCount(sz), m)
    {
      ghost var sp' := sp;
      UnmapStart(m, sp, 0, true);
      if sz > 0 {
        ghost var k;
        ok, sp', k := UvmUnmap(root, 0, PgRoundUp(sz) / PGSIZE, true, sp);
      }
      AllDropped(sp.leaf, PageCount(sz));
      assert sp'.leaf == Dropped(sp.leaf, 0, PageCount(sz));
      ghost var m1 := m;
      RootSubRep(m.tables, sp');
      ok := FreeWalk(root, 2, 0, sp');
      FreedSpace(old(m), sp, m1, sp', m, PageCount(sz));
    }

    /** `proc_freepagetable`: give back everything, except the trampoline and the trapframe, which
        are not the space's own. */
    method ProcFreePagetable(root: int, sz: nat, ghost sp: Space) returns (ok: bool)
      requires ProcSpace(m, sp, PageCount(sz)) && sp.root == root
      modifies this
      ensures ok && SpaceFreed(old(m), sp, PageCount(sz), m)
    {
      var ok1, sp2 := UnmapKernelPages(root, PageCount(sz), sp);
      ghost var m2 := m;
      var ok2 := UvmFree(root, sz, sp2);
      SameFreed(old(m), sp, m2, sp2, m, PageCount(sz));
      return ok1 && ok2;
    }

    /** The trampoline and the trapframe go, but not their frames. */
    method UnmapKernelPages(root: int, ghost n: nat, ghost sp: Space) returns (ok: bool, ghost sp': Space)
      requires ProcSpace(m, sp, n) && sp.root == root
      modifies this
      ensures ok && UserOnly(old(m), sp, m, sp', n)
    {
      var ok1, sp1, k1 := UvmUnmap(root, TRAMPOLINE, 1, false, sp);
      ghost var m1 := m;
      var ok2, sp2, k2 := UvmUnmap(root, TRAPFRAME, 1, false, sp1);
      UserPagesLeft(old(m), sp, m1, sp1, m, sp2, n);
      return ok1 && ok2, sp2;
    }

    /** `proc_pagetable`: an empty space with the trampoline and the trapframe, or nothing. */
    method ProcPagetable(trampoline: int, trapframe: int) returns (root: int, ghost sp: Space)
      requires MemOk(m)
      modifies this
      ensures root == -1 ==> Restored(old(m), m)
      ensures root != -1 ==> sp.root == root && Created(old(m), m, sp) && ProcSpace(m, sp, 0)
      ensures root != -1 ==> KernelPages(sp.leaf, trampoline, trapframe)
    {
      root := KAlloc();
      sp := EmptySpace(root);
      if root == -1 {
        return;
      }
      CreatedEmpty(old(m));
      m := AsTable(m, root);
      var r, sp1, k := MapPage(root, TRAMPOLINE, trampoline, Flags(false, true, false, true, false), old(m), sp);
      sp := sp1;
      if r != Done {
        Abandon(root, old(m), sp);
        return -1, sp;
      }
      var ok, sp2 := MapTrapframe(root, trapframe, old(m), sp);
      return if ok then root else -1, sp2;
    }

    /** The second half of `proc_pagetable`. */
    method MapTrapframe(root: int, trapframe: int, ghost m0: Mem, ghost sp: Space) returns (ok: bool, ghost sp': Space)
      requires MemOk(m0) && Created(m0, m, sp) && sp.root == root && sp.leaf.Keys == {TRAMPOLINE / PGSIZE}
      requires !sp.leaf[TRAMPOLINE / PGSIZE].flags.u
      modifies this
      ensures !ok ==> Restored(m0, m)
      ensures ok ==> sp'.root == root && Created(m0, m, sp') && ProcSpace(m, sp', 0)
      ensures ok ==> KernelPages(sp'.leaf, sp.leaf[TRAMPOLINE / PGSIZE].frame, trapframe)
    {
      var r, sp1, k := MapPage(root, TRAPFRAME, trapframe, Flags(false, true, true, false, false), m0, sp);
      sp' := sp1;
      if r != Done {
        AbandonTrampoline(root, m0, sp');
        return false, sp';
      }
      NewProcSpace(m, sp');
      return true, sp';
    }

    /** The failure paths of `proc_pagetable`. */
    method Abandon(root: int, ghost m0: Mem, ghost sp: Space)
      requires Created(m0, m, sp) && sp.root == root && sp.leaf == map[]
      modifies this
      ensures Restored(m0, m)
    {
      NoUserPages(m.pages, sp.leaf, 0, 0);
      var _ := UvmFree(root, 0, sp);
      CreatedFreed(m0, old(m), sp, m);
    }

    method AbandonTrampoline(root: int, ghost m0: Mem, ghost sp: Space)
      requires Created(m0, m, sp) && sp.root == root && sp.leaf.Keys == {TRAMPOLINE / PGSIZE}
      modifies this
      ensures Restored(m0, m)
    {
      var _, sp1, _ := UvmUnmap(root, TRAMPOLINE, 1, false, sp);
      CreatedUnmapped(m0, old(m), sp, m, sp1, TRAMPOLINE / PGSIZE);
      assert sp1.leaf.Keys == {};
      Abandon(root, m0, sp1);
    }

    /** A call of `mappages` for one page of a new space. */
    method MapPage(root: int, va: nat, frame: int, perm: Flags, ghost m0: Mem, ghost sp: Space)
      returns (r: Outcome, ghost sp': Space, ghost k: nat)
      requires MemOk(m0) && Created(m0, m, sp) && sp.root == root && va + PGSIZE <= MAXVA && va % PGSIZE == 0
      requires va / PGSIZE !in sp.leaf && (perm.r || perm.w || perm.x)
      modifies this
      ensures Created(m0, m, sp') && sp'.root == root
      ensures sp'.leaf == if r == Done then sp.leaf[va / PGSIZE := Pte(frame, perm.(v := true))] else sp.leaf
    {
      r, sp', k := MapPages(root, va, PGSIZE, frame, perm, sp, va / PGSIZE, 1);
      OnePage(sp.leaf, va / PGSIZE, k, frame, perm);
      CreatedKept(m0, old(m), sp, m, sp');
    }

    /** `growproc`: the size after the call; on failure nothing but page-table pages is taken.  There
        is no test that keeps the size below the trapframe; memory runs out first. */
    method GrowProc(root: int, sz: nat, delta: int, ghost sp: Space) returns (ok: bool, sz': nat, ghost sp': Space)
      requires ProcSpace(m, sp, PageCount(sz)) && sp.root == root
      requires -0x8000_0000 <= delta < 0x8000_0000 && FewPages(m, PageCount(sz))
      modifies this
      ensures sp'.root == root && ProcSpace(m, sp', PageCount(sz'))
      ensures Balanced(old(m), sp, PageCount(sz), m, sp', PageCount(sz'))
      ensures PagesKept(old(m), sp, PageCount(sz), m, sp', PageCount(sz'))
      ensures sz' == if ok && sz + delta >= 0 then sz + delta else sz
      ensures !ok ==> delta > 0 && |m.free| <= PageCount(sz + delta) - PageCount(sz)
    {
      sp', sz', ok := sp, sz, true;
      if delta > 0 {
        ok, sz', sp' := Enlarge(root, sz, sz + delta, sp);
      } else if delta < 0 {
        // the sum is computed modulo 2^64: one that would be negative is larger than any size
        var target := if sz + delta < 0 then sz + delta + 0x1_0000_0000_0000_0000 else sz + delta;
        sz', sp' := Reduce(root, sz, target, sp);
      } else {
        SamePages(m, sp, m, sp, PageCount(sz));
      }
    }

    method Enlarge(root: int, sz: nat, target: nat, ghost sp: Space) returns (ok: bool, sz': nat, ghost sp': Space)
      requires ProcSpace(m, sp, PageCount(sz)) && sp.root == root && sz < target && FewPages(m, PageCount(sz))
      modifies this
      ensures sp'.root == root && ProcSpace(m, sp', PageCount(sz')) && sz' == if ok then target else sz
      ensures !ok ==> |m.free| <= PageCount(target) - PageCount(sz)
      ensures Balanced(old(m), sp, PageCount(sz), m, sp', PageCount(sz'))
      ensures PagesKept(old(m), sp, PageCount(sz), m, sp', PageCount(sz'))
    {
      ghost var room := RoomAbove(m, sp, sz, target);
      var r, sp1, grown := UvmAlloc(root, sz, target, true, false, sp, room);
      sp', ok := sp1, r != 0;
      sz' := if ok then r else sz;
      Resized(old(m), sp, m, sp', PageCount(sz), PageCount(target) - PageCount(sz), PageCount(target), grown);
    }

    method Reduce(root: int, sz: nat, target: nat, ghost sp: Space) returns (sz': nat, ghost sp': Space)
      requires ProcSpace(m, sp, PageCount(sz)) && sp.root == root
      modifies this
      ensures sp'.root == root && ProcSpace(m, sp', PageCount(sz')) && sz' == if target < sz then target else sz
      ensures Balanced(old(m), sp, PageCount(sz), m, sp', PageCount(sz'))
      ensures PagesKept(old(m), sp, PageCount(sz), m, sp', PageCount(sz'))
    {
      sp' := sp;
      if target < sz {
        RoomLeft(target, sz);
        ghost var n, k := PageCount(target), PageCount(sz) - PageCount(target);
        ReadyToShrink(m, sp, n, k);
        var ok, r, sp1 := UvmDealloc(root, sz, target, sp);
        sp' := sp1;
        ShrunkSpace(old(m), sp, m, sp', n, k);
        ShrunkBalance(old(m), sp, m, sp', n, k);
        ShrunkPages(old(m), sp, m, sp', n, k, PageCount(sz));
        return r, sp';
      }
      SamePages(m, sp, m, sp, PageCount(sz));
      RoomLeft(sz, target);
      NoUserPages(m.pages, sp.leaf, PageCount(target), PageCount(sz) - PageCount(target));
      var ok, r, sp1 := UvmDealloc(root, sz, target, sp);
      return r, sp';
    }

    /** A whole life of an address space: it is made, grows and shrinks as asked, and is freed.
        Whatever happens on the way, memory is at the end as it was, and nothing panics. */
    method Lifetime(trampoline: int, trapframe: int, deltas: seq<int>) returns (ok: bool)
      requires MemOk(m) && FewPages(m, 0) && forall i :: 0 <= i < |deltas| ==> -0x8000_0000 <= deltas[i] < 0x8000_0000
      modifies this
      ensures ok && Restored(old(m), m)
    {
      var root, sp := ProcPagetable(trampoline, trapframe);
      if root == -1 {
        return true;
      }
      ghost var m1, sp1 := m, sp;
      BalancedStart(m, sp, 0);
      var sz: nat, i := 0, 0;
      while i < |deltas|
        invariant 0 <= i <= |deltas| && sp.root == root
        invariant ProcSpace(m, sp, PageCount(sz)) && Balanced(m1, sp1, 0, m, sp, PageCount(sz))
      {
        ghost var m2, sp2, n2 := m, sp, PageCount(sz);
        StillFew(old(m), m1, sp1, m, sp, n2);
        var _, sz', sp' := GrowProc(root, sz, deltas[i], sp);
        sz, sp := sz', sp';
        BalancedTrans(m1, sp1, 0, m2, sp2, n2, m, sp, PageCount(sz));
        i := i + 1;
      }
      ghost var m3 := m;
      ok := ProcFreePagetable(root, sz, sp);
      LifeEnds(old(m), m1, sp1, m3, sp, PageCount(sz), m);
    }

    /** The frame of a user page, or -1. */
    method WalkAddr(root: int, va: nat, ghost sp: Space) returns (f: int)
      requires MemOk(m) && Rep(m.tables, sp) && sp.root == root
      modifies this
      ensures m == old(m)
      ensures f == if Reachable(sp, va) then sp.leaf[va / PGSIZE].frame else -1
    {
      if va >= MAXVA {
        return -1;
      }
      var ok, t, _ := Walk(root, va, false, sp);
      assert NestedAt(sp, va / PGSIZE);
      if !ok {
        return -1;
      }
      LeafReads(m.tables, sp, va / PGSIZE);
      AddressDigits(va);
      var pte := m.tables[t][Px(0, va)];
      if !pte.flags.v || !pte.flags.u {
        return -1;
      }
      return pte.frame;
    }

    /** Copy `len` bytes from `srcva`: exactly those that the flat map names, or failure at the
        first page that the program may not use. */
    method CopyIn(root: int, srcva: nat, len: nat, ghost sp: Space) returns (ok: bool, dst: seq<int>)
      requires UserOk(m, sp) && sp.root == root
      modifies this
      ensures m == old(m) && Holds(m.pages, sp, srcva, dst)
      ensures ok ==> |dst| == len
      ensures !ok ==> |dst| < len && !Reachable(sp, srcva + |dst|)
    {
      dst := [];
      var va, left := srcva, len;
      while left > 0
        invariant m == old(m) && Holds(m.pages, sp, srcva, dst) && |dst| + left == len
        invariant 0 <= left && 0 <= va && (left > 0 ==> va == srcva + |dst|)
        decreases left
      {
        var va0 := PgRoundDown(va);
        RoundedDown(m, sp, va);
        var pa0 := WalkAddr(root, va0, sp);
        if pa0 == -1 {
          return false, dst;
        }
        var n := PGSIZE - (va - va0);
        if n > left {
          n := left;
        }
        ChunkHolds(m, sp, srcva, dst, n);
        dst := dst + m.pages[pa0][va - va0..va - va0 + n];
        left := left - n;
        va := va0 + PGSIZE;
      }
      return true, dst;
    }

    /** Copy `src` to `dstva`: exactly those bytes of user memory change, up to the first page that
        the program may not use. */
    method CopyOut(root: int, dstva: nat, src: seq<int>, ghost sp: Space) returns (ok: bool, ghost k: nat)
      requires UserOk(m, sp) && sp.root == root
      modifies this
      ensures UserOk(m, sp) && k <= |src| && Stored(old(m), m, sp, dstva, src[..k])
      ensures ok ==> k == |src|
      ensures !ok ==> k < |src| && !Reachable(sp, dstva + k)
    {
      k := 0;
      StoredNothing(m, sp, dstva);
      var va, left := dstva, |src|;
      while left > 0
        invariant 0 <= left && 0 <= va && k + left == |src| && (left > 0 ==> va == dstva + k)
        invariant UserOk(m, sp) && Stored(old(m), m, sp, dstva, src[..k])
        decreases left
      {
        var va0 := PgRoundDown(va);
        RoundedDown(m, sp, va);
        var pa0 := WalkAddr(root, va0, sp);
        if pa0 == -1 {
          return false, k;
        }
        var n := PGSIZE - (va - va0);
        if n > left {
          n := left;
        }
        ghost var m1 := m;
        var bytes := src[|src| - left..|src| - left + n];
        StoreChunk(m, sp, va, bytes);
        m := m.(pages := m.pages[pa0 := Overwrite(m.pages[pa0], va - va0, bytes)]);
        StoredMore(old(m), m1, m, sp, dstva, src[..k], bytes);
        assert src[..k] + bytes == src[..k + n];
        k := k + n;
        left := left - n;
        va := va0 + PGSIZE;
      }
      assert src[..k] == src;
      return true, k;
    }

    /** Copy a string: the bytes up to and including the first NUL, if there is one among the first
        `max` bytes and before the first page that the program may not use. */
    method CopyInStr(root: int, srcva: nat, max: nat, ghost sp: Space) returns (ok: bool, dst: seq<int>)
      requires UserOk(m, sp) && sp.root == root
      modifies this
      ensures m == old(m) && Holds(m.pages, sp, srcva, dst) && |dst| <= max
      ensures ok ==> |dst| > 0 && dst[|dst| - 1] == 0 && 0 !in dst[..|dst| - 1]
      ensures !ok ==> 0 !in dst && (|dst| == max || !Reachable(sp, srcva + |dst|))
    {
      dst := [];
      var gotNull := false;
      var va, left := srcva, max;
      while !gotNull && left > 0
        invariant m == old(m) && Holds(m.pages, sp, srcva, dst) && 0 <= left && 0 <= va && |dst| <= max
        invariant !gotNull ==> |dst| + left == max && 0 !in dst && (left > 0 ==> va == srcva + |dst|)
        invariant gotNull ==> |dst| > 0 && dst[|dst| - 1] == 0 && 0 !in dst[..|dst| - 1]
        decreases if gotNull then 0 else left
      {
        var va0 := PgRoundDown(va);
        RoundedDown(m, sp, va);
        var pa0 := WalkAddr(root, va0, sp);
        if pa0 == -1 {
          return false, dst;
        }
        var n := PGSIZE - (va - va0);
        if n > left {
          n := left;
        }
        var p := va - va0;
        ghost var begun := left;
        while n > 0
          invariant m == old(m) && Holds(m.pages, sp, srcva, dst) && 0 !in dst
          invariant 0 <= n <= left <= begun && |dst| + left == max && p == srcva + |dst| - va0 && va - va0 <= p
                    && p + n <= PGSIZE
          invariant left < begun || n > 0
          invariant p + n == PGSIZE || n == left
          decreases n
        {
          SamePage(va, p - (va - va0));
          ChunkHolds(m, sp, srcva, dst, 1);
          assert m.pages[pa0][p..p + 1] == [m.pages[pa0][p]];
          if m.pages[pa0][p] == 0 {
            dst := dst + [0];
            gotNull := true;
            break;
          }
          dst := dst + [m.pages[pa0][p]];
          n := n - 1;
          left := left - 1;
          p := p + 1;
        }
        va := va0 + PGSIZE;
      }
      return gotNull, dst;
    }
  }
}

