/** The free list of the Kernighan and Ritchie allocator, as a list of blocks.

    Addresses count units of `sizeof(Header)`.  The list starts with the static header `base`,
    which has size zero and lies below the heap. */
module FreeList {

  datatype Block = Block(addr: int, units: int)

  function End(b: Block): int {
    b.addr + b.units
  }

  /** Address-ordered, disjoint, and with no two blocks adjacent. */
  predicate Gapped(free: seq<Block>) {
    forall i, j :: 0 <= i < j < |free| ==> End(free[i]) < free[j].addr
  }

  predicate Sized(free: seq<Block>) {
    && free != [] && free[0].units == 0
    && (forall i :: 0 < i < |free| ==> 0 < free[i].units)
  }

  predicate InBlock(b: Block, a: int) {
    b.addr <= a < End(b)
  }

  predicate Covered(free: seq<Block>, a: int) {
    exists i :: 0 <= i < |free| && InBlock(free[i], a)
  }

  // --- free ------------------------------------------------------------------------------

  /** `t` is the block after which a block at `addr` belongs. */
  predicate Slot(free: seq<Block>, t: int, addr: int) {
    && 0 <= t < |free| && free[t].addr < addr
    && (t + 1 < |free| ==> addr < free[t + 1].addr)
  }

  predicate JoinsUpper(free: seq<Block>, t: int, b: Block) {
    0 <= t && t + 1 < |free| && End(b) == free[t + 1].addr
  }

  predicate JoinsLower(free: seq<Block>, t: int, b: Block) {
    0 <= t < |free| && End(free[t]) == b.addr
  }

  /** The block together with the upper neighbour that it joins, if any. */
  function Upper(free: seq<Block>, t: int, b: Block): Block {
    if JoinsUpper(free, t, b) then Block(b.addr, b.units + free[t + 1].units) else b
  }

  function Above(free: seq<Block>, t: int, b: Block): seq<Block>
    requires 0 <= t < |free|
  {
    if JoinsUpper(free, t, b) then free[t + 2..] else free[t + 1..]
  }

  /** Put a block back at its place and join it to its neighbours. */
  function Insert(free: seq<Block>, t: int, b: Block): seq<Block>
    requires 0 <= t < |free|
  {
    var mid, rest := Upper(free, t, b), Above(free, t, b);
    if JoinsLower(free, t, b) then free[..t] + [Block(free[t].addr, free[t].units + mid.units)] + rest
    else free[..t + 1] + [mid] + rest
  }

  /** The block overlaps nothing in the list. */
  predicate Apart(free: seq<Block>, b: Block) {
    forall i :: 0 <= i < |free| ==> End(free[i]) <= b.addr || End(b) <= free[i].addr
  }

  lemma GappedAround(x: seq<Block>, m: Block, y: seq<Block>)
    requires Gapped(x) && Gapped(y)
    requires forall i :: 0 <= i < |x| ==> End(x[i]) < m.addr
    requires forall j :: 0 <= j < |y| ==> End(m) < y[j].addr
    requires m.addr <= End(m)
    ensures Gapped(x + [m] + y)
  {
    var s := x + [m] + y;
    forall i, j | 0 <= i < j < |s| ensures End(s[i]) < s[j].addr {
      if i < |x| && |x| < j {
        assert End(x[i]) < m.addr;
        assert s[j] == y[j - |x| - 1];
      }
    }
  }

  lemma AboveGapped(free: seq<Block>, t: int, b: Block)
    requires Gapped(free) && Sized(free) && Slot(free, t, b.addr) && Apart(free, b) && 0 < b.units
    ensures Gapped(Above(free, t, b))
    ensures forall j :: 0 <= j < |Above(free, t, b)| ==> End(Upper(free, t, b)) < Above(free, t, b)[j].addr
    ensures b.addr < End(Upper(free, t, b))
  {
    if t + 1 < |free| {
      assert End(b) <= free[t + 1].addr;
      assert free[t + 1].addr < End(free[t + 1]);
    }
  }

  lemma InsertGapped(free: seq<Block>, t: int, b: Block)
    requires Gapped(free) && Sized(free) && Slot(free, t, b.addr) && Apart(free, b) && 0 < b.units
    ensures Gapped(Insert(free, t, b))
  {
    AboveGapped(free, t, b);
    var mid, rest := Upper(free, t, b), Above(free, t, b);
    assert End(free[t]) <= b.addr;
    if JoinsLower(free, t, b) {
      GappedAround(free[..t], Block(free[t].addr, free[t].units + mid.units), rest);
    } else {
      forall i | 0 <= i < t + 1 ensures End(free[i]) < mid.addr {
        assert i < t ==> End(free[i]) < free[t].addr;
      }
      GappedAround(free[..t + 1], mid, rest);
    }
  }

  lemma InsertSized(free: seq<Block>, t: int, b: Block)
    requires Sized(free) && Slot(free, t, b.addr) && 0 < b.units
    ensures Sized(Insert(free, t, b)) && Insert(free, t, b)[0] == free[0]
  {
  }

  lemma CoveredAround(x: seq<Block>, m: Block, y: seq<Block>, a: int)
    ensures Covered(x + [m] + y, a) <==> Covered(x, a) || InBlock(m, a) || Covered(y, a)
  {
    var s := x + [m] + y;
    if InBlock(m, a) {
      assert s[|x|] == m;
    }
    if i :| 0 <= i < |y| && InBlock(y[i], a) {
      assert s[|x| + 1 + i] == y[i];
    }
    if i :| 0 <= i < |x| && InBlock(x[i], a) {
      assert s[i] == x[i];
    }
  }

  lemma CoveredSplit(s: seq<Block>, t: int, a: int)
    requires 0 <= t < |s|
    ensures Covered(s, a) <==> Covered(s[..t], a) || InBlock(s[t], a) || Covered(s[t + 1..], a)
  {
    CoveredAround(s[..t], s[t], s[t + 1..], a);
    assert s == s[..t] + [s[t]] + s[t + 1..];
  }

  /** Putting a block back makes exactly its units free. */
  lemma InsertCovers(free: seq<Block>, t: int, b: Block, a: int)
    requires Sized(free) && Slot(free, t, b.addr) && 0 < b.units
    ensures Covered(Insert(free, t, b), a) <==> Covered(free, a) || InBlock(b, a)
  {
    var mid, rest := Upper(free, t, b), Above(free, t, b);
    CoveredSplit(free, t, a);
    if JoinsUpper(free, t, b) {
      CoveredSplit(free[t + 1..], 0, a);
      assert free[t + 1..][1..] == free[t + 2..];
    }
    if JoinsLower(free, t, b) {
      CoveredAround(free[..t], Block(free[t].addr, free[t].units + mid.units), rest, a);
    } else {
      CoveredAround(free[..t + 1], mid, rest, a);
      CoveredSplit(free[..t + 1], t, a);
      assert free[..t + 1][..t] == free[..t];
    }
  }

  // --- malloc ------------------------------------------------------------------------------

  /** Take `n` units from the upper end of block `k`, or the whole block if it fits exactly. */
  function Take(free: seq<Block>, k: int, n: int): seq<Block>
    requires 0 <= k < |free|
  {
    if free[k].units == n then free[..k] + free[k + 1..]
    else free[k := Block(free[k].addr, free[k].units - n)]
  }

  function Taken(free: seq<Block>, k: int, n: int): Block
    requires 0 <= k < |free|
  {
    Block(End(free[k]) - n, n)
  }

  lemma TakeKeeps(free: seq<Block>, k: int, n: int)
    requires Gapped(free) && Sized(free) && 0 < k < |free| && 0 < n <= free[k].units
    ensures Gapped(Take(free, k, n)) && Sized(Take(free, k, n)) && Take(free, k, n)[0] == free[0]
  {
  }

  /** Taking a block makes exactly its units not free. */
  lemma TakeCovers(free: seq<Block>, k: int, n: int, a: int)
    requires Gapped(free) && Sized(free) && 0 < k < |free| && 0 < n <= free[k].units
    ensures Covered(Take(free, k, n), a) <==> Covered(free, a) && !InBlock(Taken(free, k, n), a)
    ensures InBlock(Taken(free, k, n), a) ==> Covered(free, a)
  {
    var b := free[k];
    CoveredSplit(free, k, a);
    if InBlock(b, a) {
      assert !Covered(free[..k], a) && !Covered(free[k + 1..], a);
    }
    if b.units == n {
      CoveredConcat(free[..k], free[k + 1..], a);
    } else {
      var c := Block(b.addr, b.units - n);
      assert free[k := c] == free[..k] + [c] + free[k + 1..];
      CoveredAround(free[..k], c, free[k + 1..], a);
    }
  }

  lemma ReinsertWhole(free: seq<Block>, k: int)
    requires Gapped(free) && Sized(free) && 0 < k < |free|
    ensures var rest := free[..k] + free[k + 1..];
            Slot(rest, k - 1, free[k].addr) && Insert(rest, k - 1, free[k]) == free
  {
    var rest := free[..k] + free[k + 1..];
    assert End(free[k - 1]) < free[k].addr;
    if k + 1 < |free| {
      assert End(free[k]) < free[k + 1].addr && rest[k] == free[k + 1];
    }
    assert rest[..k] == free[..k] && rest[k..] == free[k + 1..];
  }

  lemma ReinsertPart(free: seq<Block>, k: int, n: int)
    requires Gapped(free) && Sized(free) && 0 < k < |free| && 0 < n < free[k].units
    ensures var rest := free[k := Block(free[k].addr, free[k].units - n)];
            var b := Block(End(free[k]) - n, n);
            Slot(rest, k, b.addr) && Insert(rest, k, b) == free
  {
    var rest := free[k := Block(free[k].addr, free[k].units - n)];
    if k + 1 < |free| {
      assert End(free[k]) < free[k + 1].addr;
    }
    assert rest[..k] == free[..k] && rest[k + 1..] == free[k + 1..];
  }

  /** Freeing what was just taken gives the list back. */
  lemma TakeThenInsert(free: seq<Block>, k: int, n: int, t: int)
    requires Gapped(free) && Sized(free) && 0 < k < |free| && 0 < n <= free[k].units
    requires Slot(Take(free, k, n), t, Taken(free, k, n).addr)
    ensures Insert(Take(free, k, n), t, Taken(free, k, n)) == free
  {
    TakeKeeps(free, k, n);
    if free[k].units == n {
      ReinsertWhole(free, k);
      SlotUnique(Take(free, k, n), k - 1, t, Taken(free, k, n).addr);
    } else {
      ReinsertPart(free, k, n);
      SlotUnique(Take(free, k, n), k, t, Taken(free, k, n).addr);
    }
  }

  lemma SlotUnique(free: seq<Block>, s: int, t: int, addr: int)
    requires Gapped(free) && Sized(free) && Slot(free, s, addr) && Slot(free, t, addr)
    ensures s == t
  {
  }

  lemma CoveredConcat(x: seq<Block>, y: seq<Block>, a: int)
    ensures Covered(x + y, a) <==> Covered(x, a) || Covered(y, a)
  {
    if i :| 0 <= i < |y| && InBlock(y[i], a) {
      assert (x + y)[|x| + i] == y[i];
    }
    if i :| 0 <= i < |x| && InBlock(x[i], a) {
      assert (x + y)[i] == x[i];
    }
  }
}

/** `malloc`, `free` and `morecore`, relinking headers in place. */
module Umalloc {
  import opened FreeList
  import opened Options

  /** The address of the static header, below the heap. */
  const BASE: int := 1

  const MIN_UNITS: int := 4096

  /** The sizes in the headers are `uint`s. */
  const UINT_LIMIT: int := 0x1_0000_0000

  /** The largest request, in units, that fits the `int` argument of `sbrk`. */
  const SBRK_LIMIT: int := 0x7fff_ffff / 16

  /** `sizeof(Header)` is 16. */
  function UnitsFor(nbytes: int): (n: int)
    requires 0 <= nbytes
    ensures 1 <= n && nbytes <= 16 * (n - 1) < nbytes + 16
  {
    (nbytes + 16 - 1) / 16 + 1
  }

  function Nxt(free: seq<Block>, i: int): int {
    if i + 1 < |free| then i + 1 else 0
  }

  /** How many links lead from block `k` to block `t`. */
  function Dist(free: seq<Block>, k: int, t: int): int {
    if k <= t then t - k else |free| - k + t
  }

  /** The headers in memory form a ring through the blocks of the list. */
  predicate Linked(ptr: map<int, int>, size: map<int, int>, free: seq<Block>) {
    forall i :: 0 <= i < |free| ==> Header(ptr, size, free[i], free[Nxt(free, i)].addr)
  }

  /** The header of the block has its size and points to `next`. */
  predicate Header(ptr: map<int, int>, size: map<int, int>, b: Block, next: int) {
    b.addr in ptr && ptr[b.addr] == next && b.addr in size && size[b.addr] == b.units
  }

  /** The ring as the loops walk it, with `freep` at block `at`. */
  predicate Ring(ptr: map<int, int>, size: map<int, int>, free: seq<Block>, freep: int, at: int) {
    Linked(ptr, size, free) && Gapped(free) && Sized(free) && 0 <= at < |free| && freep == free[at].addr
  }

  predicate NotListed(free: seq<Block>, a: int) {
    forall i :: 0 <= i < |free| ==> free[i].addr != a
  }

  /** The two tests of the search loop of `free`, at `p` with the next header at `q`. */
  predicate SlotTest(p: int, q: int, bp: int) {
    (bp > p && bp < q) || (p >= q && (bp > p || bp < q))
  }

  /** Some free block has at least `n` units. */
  predicate Fits(free: seq<Block>, n: int) {
    exists i :: 0 <= i < |free| && n <= free[i].units
  }

  /** The blocks that a walk from `at` to `k` has passed are too small. */
  predicate SmallBefore(free: seq<Block>, k: int, at: int, n: int) {
    forall i :: 0 <= i < |free| && Dist(free, k, at) < Dist(free, i, at) ==> free[i].units < n
  }

  lemma LinkedAt(ptr: map<int, int>, size: map<int, int>, free: seq<Block>, i: int)
    requires Linked(ptr, size, free) && 0 <= i < |free|
    ensures Header(ptr, size, free[i], free[Nxt(free, i)].addr)
    ensures Header(ptr, size, free[Nxt(free, i)], free[Nxt(free, Nxt(free, i))].addr)
  {
    var j := Nxt(free, i);
    assert Header(ptr, size, free[j], free[Nxt(free, j)].addr);
  }

  predicate InLive(live: map<int, int>, a: int) {
    exists b :: b in live && InBlock(Block(b, live[b]), a)
  }

  predicate LiveApart(live: map<int, int>) {
    && (forall b :: b in live ==> 0 < live[b])
    && (forall b, c :: b in live && c in live && b < c ==> b + live[b] <= c)
  }

  /** Every unit that came from `sbrk` is free or belongs to one live block, never both. */
  ghost predicate Owned(free: seq<Block>, live: map<int, int>, obtained: set<int>) {
    && (forall a :: a in obtained <==> Covered(free, a) || InLive(live, a))
    && (forall a :: !(Covered(free, a) && InLive(live, a)))
    && LiveApart(live)
  }

  /** The blocks lie between the static header and the break. */
  predicate Bounded(free: seq<Block>, live: map<int, int>, brk: int) {
    && free != [] && free[0].addr == BASE
    && BASE < brk < UINT_LIMIT
    && (forall i :: 0 < i < |free| ==> End(free[i]) <= brk)
    && (forall b :: b in live ==> BASE < b && b + live[b] <= brk)
  }

  /** The allocator's memory, with the list that the ring represents, the blocks that have been
      handed out and not returned, and the units obtained from `sbrk`. */
  datatype Heap = Heap(
    ptr: map<int, int>, size: map<int, int>, freep: int, brk: int,
    free: seq<Block>, at: int, live: map<int, int>, obtained: set<int>)

  ghost predicate Ok(h: Heap) {
    && Gapped(h.free) && Sized(h.free)
    && Owned(h.free, h.live, h.obtained)
    && Bounded(h.free, h.live, h.brk)
    && (forall b :: b in h.live ==> b in h.size && h.size[b] == h.live[b])
    && if h.freep == 0 then h.free == [Block(BASE, 0)] && h.live == map[]
       else Linked(h.ptr, h.size, h.free) && 0 <= h.at < |h.free| && h.freep == h.free[h.at].addr
  }

  class Allocator {
    var ptr: map<int, int>    // s.ptr of each header
    var size: map<int, int>   // s.size of each header
    var freep: int            // 0 before the first call
    var brk: int              // the end of the heap, in units
    ghost var free: seq<Block>
    ghost var at: int         // freep is the address of free[at]
    ghost var live: map<int, int>
    ghost var obtained: set<int>

    ghost function View(): Heap
      reads this
    {
      Heap(ptr, size, freep, brk, free, at, live, obtained)
    }

    ghost predicate Valid()
      reads this
    {
      Ok(View())
    }

    constructor (brk: int)
      requires BASE < brk < UINT_LIMIT
      ensures Valid() && live == map[] && obtained == {} && freep == 0 && this.brk == brk
    {
      ptr, size, freep, at := map[], map[], 0, 0;
      this.brk := brk;
      free, live, obtained := [Block(BASE, 0)], map[], {};
    }

    /** The search loop of `free`: the place in the ring where `bp` belongs. */
    method FindSlot(bp: int) returns (p: int, ghost t: int)
      requires Ring(ptr, size, free, freep, at) && free[0].addr < bp && NotListed(free, bp)
      ensures Slot(free, t, bp) && p == free[t].addr
    {
      t := SlotExists(free, bp);
      p := freep;
      ghost var k := at;
      SlotHere(ptr, size, free, k, bp, t);
      while !(bp > p && bp < ptr[p])
        invariant 0 <= k < |free| && p == free[k].addr && p in ptr && ptr[p] == free[Nxt(free, k)].addr
        invariant SlotTest(p, ptr[p], bp) <==> k == t
        decreases Dist(free, k, t)
      {
        if p >= ptr[p] && (bp > p || bp < ptr[p]) {
          return;
        }
        StepDist(free, k, t);
        p := ptr[p];
        k := Nxt(free, k);
        SlotHere(ptr, size, free, k, bp, t);
      }
    }

    /** `free`: the block goes back into the ring and joins its neighbours. */
    method Free(ap: int) returns (ghost t: int)
      requires Valid() && ap - 1 in live
      modifies this`ptr, this`size, this`freep, this`free, this`at, this`live
      ensures Valid() && freep != 0
      ensures Slot(old(free), t, ap - 1)
      ensures free == Insert(old(free), t, Block(ap - 1, old(live[ap - 1]))) && at == t
      ensures live == old(live) - {ap - 1}
    {
      var bp := ap - 1;
      ghost var h := View();
      ReadyToFree(h, bp);
      var p;
      p, t := FindSlot(bp);
      FreeOk(h, t, bp);
      Relink(p, bp);
      freep := p;
      free, at, live := Insert(free, t, Block(bp, live[bp])), t, live - {bp};
      assert View() == Freed(h, t, bp);
    }

    /** The two tests of `free` that link the block in. */
    method Relink(p: int, bp: int)
      requires p in ptr && p in size && bp in size && ptr[p] in ptr && ptr[p] in size
      modifies this`ptr, this`size
      ensures ptr == PtrLower(PtrUpper(old(ptr), old(size), p, bp), SizeUpper(old(ptr), old(size), p, bp), p, bp)
      ensures size == SizeLower(SizeUpper(old(ptr), old(size), p, bp), p, bp)
    {
      if bp + size[bp] == ptr[p] {
        ptr, size := ptr[bp := ptr[ptr[p]]], size[bp := size[bp] + size[ptr[p]]];
      } else {
        ptr := ptr[bp := ptr[p]];
      }
      if p + size[p] == bp {
        ptr, size := ptr[p := ptr[bp]], size[p := size[p] + size[bp]];
      } else {
        ptr := ptr[p := bp];
      }
    }

    /** The new memory gets a header and is freed like any other block. */
    method Grow(hp: int, n: int) returns (ghost t: int)
      requires Valid() && freep != 0 && brk <= hp && 0 < n && hp + n < UINT_LIMIT
      modifies this
      ensures Valid() && freep != 0 && brk == hp + n
      ensures live == old(live) && obtained == old(obtained) + Units(hp, n)
      ensures Slot(old(free), t, hp) && free == Insert(old(free), t, Block(hp, n)) && at == t
    {
      ghost var h := View();
      GrantOk(h, hp, n);
      size := size[hp := n];
      brk, live, obtained := hp + n, live[hp := n], obtained + Units(hp, n);
      assert View() == Granted(h, hp, n);
      t := Free(hp + 1);
      AddDrop(h.live, hp, n);
    }

    /** `morecore`.  `grant` is what `sbrk` answers: `None` for failure, or the address of the new
        memory. */
    method Morecore(nu: int, grant: Option<int>) returns (p: int, ghost g: int)
      requires Valid() && freep != 0 && Grantable(brk, nu, grant)
      modifies this
      ensures grant.None? ==> p == 0 && View() == old(View())
      ensures grant.Some? ==> Valid() && freep != 0 && p == freep
      ensures grant.Some? ==> live == old(live) && obtained == old(obtained) + Units(grant.value, Rounded(nu))
      ensures grant.Some? ==> 0 <= g < |free| && nu <= free[g].units && (g == at || g == Nxt(free, at))
    {
      g := 0;
      var n := nu;
      if n < MIN_UNITS {
        n := MIN_UNITS;
      }
      if grant.None? {
        return 0, 0;
      }
      ghost var was := free;
      ghost var t := Grow(grant.value, n);
      g := InsertRoom(was, t, Block(grant.value, n));
      p := freep;
    }

    /** The search loop of `malloc`, from the block after `freep` up to one that is large enough
        or, failing that, back to `freep`.  The first that fits is taken. */
    method Search(nunits: int) returns (found: bool, prevp: int, p: int, ghost k: int)
      requires Ring(ptr, size, free, freep, at)
      ensures 0 <= k < |free| && p == free[k].addr && prevp == free[Prev(free, k)].addr
      ensures SmallBefore(free, k, at, nunits)
      ensures found ==> nunits <= free[k].units
      ensures !found ==> k == at && !Fits(free, nunits)
    {
      prevp, k := freep, Nxt(free, at);
      FirstStep(ptr, size, free, at, nunits);
      p := ptr[prevp];
      while true
        invariant 0 <= k < |free| && p == free[k].addr && prevp == free[Prev(free, k)].addr
        invariant SmallBefore(free, k, at, nunits)
        decreases Dist(free, k, at)
      {
        SearchStep(ptr, size, free, k, at, nunits);
        if size[p] >= nunits {
          return true, prevp, p, k;
        }
        if p == freep {
          return false, prevp, p, k;
        }
        prevp := p;
        p := ptr[p];
        k := Nxt(free, k);
      }
    }

    /** `malloc`: returns 0 only when `sbrk` fails, and asks it for memory at most once. */
    method Malloc(nbytes: int, grant: Option<int>) returns (r: int, calls: nat)
      requires Valid() && 0 <= nbytes && Grantable(brk, UnitsFor(nbytes), grant)
      modifies this
      ensures Valid() && calls <= 1 && (calls == 0 <==> Fits(old(free), UnitsFor(nbytes)))
      ensures r == 0 ==> calls == 1 && grant.None? && live == old(live) && obtained == old(obtained)
      ensures r != 0 ==> r - 1 !in old(live) && live == old(live)[r - 1 := UnitsFor(nbytes)]
      ensures r != 0 && calls == 0 ==> obtained == old(obtained)
      ensures r != 0 && calls == 1 ==>
                grant.Some? && obtained == old(obtained) + Units(grant.value, Rounded(UnitsFor(nbytes)))
    {
      var nunits := UnitsFor(nbytes);
      calls := 0;
      if freep == 0 {
        FirstUse();
      }
      while true
        invariant Valid() && freep != 0 && 0 <= calls <= 1
        invariant live == old(live)
        invariant calls == 0 ==> obtained == old(obtained) && brk == old(brk) && free == old(free)
        invariant calls == 1 ==> grant.Some? && obtained == old(obtained) + Units(grant.value, Rounded(nunits))
        invariant calls == 1 ==> Fits(free, nunits) && !Fits(old(free), nunits)
        decreases 1 - calls
      {
        r := TakeFit(nunits);
        if r != 0 {
          r := r + 1;
          return;
        }
        ghost var g;
        calls := calls + 1;
        var p;
        p, g := Morecore(nunits, grant);
        if p == 0 {
          return 0, calls;
        }
      }
    }

    /** Take the first block that fits, or what is needed of it; 0 if none fits. */
    method TakeFit(n: int) returns (r: int)
      requires Valid() && freep != 0 && 0 < n
      modifies this`ptr, this`size, this`freep, this`free, this`at, this`live
      ensures !Fits(old(free), n) ==> r == 0 && View() == old(View())
      ensures Fits(old(free), n) ==> Valid() && BASE < r && r !in old(live) && live == old(live)[r := n]
    {
      ghost var h := View();
      RingOf(h);
      var found, prevp, p, k := Search(n);
      if !found {
        return 0;
      }
      FoundAt(h, k, n);
      CarveOk(h, k, n);
      r := Carve(prevp, p, n, k);
    }

    /** The first call makes `base` a ring of its own. */
    method FirstUse()
      requires Valid() && freep == 0
      modifies this`ptr, this`size, this`freep, this`at
      ensures Valid() && freep != 0
    {
      ptr, size, freep := ptr[BASE := BASE], size[BASE := 0], BASE;
      at := 0;
    }

    /** Cut `n` units out of the block at `p`, which follows `prevp` in the ring. */
    method Carve(prevp: int, p: int, n: int, ghost k: int) returns (r: int)
      requires 0 < k < |free| && 0 < n <= free[k].units && p == free[k].addr && prevp == free[k - 1].addr
      requires p in ptr && p in size && size[p] == free[k].units
      modifies this`ptr, this`size, this`freep, this`free, this`at, this`live
      ensures r == Taken(old(free), k, n).addr && View() == Carved(old(View()), k, n)
    {
      r := p;
      if size[p] == n {
        ptr := ptr[prevp := ptr[p]];
      } else {
        size := size[p := size[p] - n];
        r := r + size[p];
        size := size[r := n];
      }
      freep := prevp;
      free, at, live := Take(free, k, n), k - 1, live[r := n];
    }
  }

  // --- relinking ---------------------------------------------------------------------------

  /** The headers after the first test of `free`, which looks at the upper neighbour. */
  function PtrUpper(ptr: map<int, int>, size: map<int, int>, p: int, bp: int): map<int, int>
    requires p in ptr && bp in size && ptr[p] in ptr
  {
    ptr[bp := if bp + size[bp] == ptr[p] then ptr[ptr[p]] else ptr[p]]
  }

  function SizeUpper(ptr: map<int, int>, size: map<int, int>, p: int, bp: int): map<int, int>
    requires p in ptr && bp in size && ptr[p] in size
  {
    if bp + size[bp] == ptr[p] then size[bp := size[bp] + size[ptr[p]]] else size
  }

  /** The headers after the second test, which looks at the lower neighbour. */
  function PtrLower(ptr: map<int, int>, size: map<int, int>, p: int, bp: int): map<int, int>
    requires p in size && bp in ptr
  {
    ptr[p := if p + size[p] == bp then ptr[bp] else bp]
  }

  function SizeLower(size: map<int, int>, p: int, bp: int): map<int, int>
    requires p in size && bp in size
  {
    if p + size[p] == bp then size[p := size[p] + size[bp]] else size
  }

  /** The first test sees the upper neighbour in the list. */
  lemma UpperTest(ptr: map<int, int>, size: map<int, int>, free: seq<Block>, t: int, b: Block)
    requires Relinkable(ptr, size, free, t, b) && Header(ptr, size, free[t], free[Nxt(free, t)].addr)
    requires b.addr in size && size[b.addr] == b.units
    requires Header(ptr, size, free[Nxt(free, t)], free[Nxt(free, Nxt(free, t))].addr)
    ensures var p, n := free[t].addr, if JoinsUpper(free, t, b) then Nxt(free, t + 1) else Nxt(free, t);
            && PtrUpper(ptr, size, p, b.addr) == ptr[b.addr := free[n].addr]
            && SizeUpper(ptr, size, p, b.addr) == size[b.addr := Upper(free, t, b).units]
  {
    assert free[0].addr < b.addr;
  }

  /** Where each block of the new list comes from, when the block does not join its lower
      neighbour. */
  lemma InsertShape(free: seq<Block>, t: int, b: Block, i: int)
    requires 0 <= t < |free| && !JoinsLower(free, t, b) && 0 <= i < |Insert(free, t, b)|
    ensures var list := Insert(free, t, b);
            var skip := if JoinsUpper(free, t, b) then 1 else 0;
            && |list| == |free| + 1 - skip
            && list[i] == if i <= t then free[i] else if i == t + 1 then Upper(free, t, b) else free[i - 1 + skip]
  {
  }

  lemma InsertNext(free: seq<Block>, t: int, b: Block, i: int)
    requires 0 <= t < |free| && !JoinsLower(free, t, b) && 0 <= i < |Insert(free, t, b)|
    ensures var list := Insert(free, t, b);
            var skip := if JoinsUpper(free, t, b) then 1 else 0;
            list[Nxt(list, i)].addr
            == if i == t then b.addr
               else if i < t then free[Nxt(free, i)].addr
               else free[Nxt(free, i - 1 + skip)].addr
  {
    InsertShape(free, t, b, Nxt(Insert(free, t, b), i));
  }

  lemma JoinNext(free: seq<Block>, t: int, b: Block, i: int)
    requires 0 <= t < |free| && JoinsLower(free, t, b) && 0 <= i < |Insert(free, t, b)|
    ensures var list := Insert(free, t, b);
            var skip := if JoinsUpper(free, t, b) then 1 else 0;
            list[Nxt(list, i)].addr
            == if i < t then free[Nxt(free, i)].addr else free[Nxt(free, i + skip)].addr
  {
    JoinShape(free, t, b, Nxt(Insert(free, t, b), i));
  }

  lemma JoinShape(free: seq<Block>, t: int, b: Block, i: int)
    requires 0 <= t < |free| && JoinsLower(free, t, b) && 0 <= i < |Insert(free, t, b)|
    ensures var list := Insert(free, t, b);
            var skip := if JoinsUpper(free, t, b) then 1 else 0;
            && |list| == |free| - skip
            && list[i] == if i < t then free[i]
                         else if i == t then Block(free[t].addr, free[t].units + Upper(free, t, b).units)
                         else free[i + skip]
  {
  }

  predicate Relinkable(ptr: map<int, int>, size: map<int, int>, free: seq<Block>, t: int, b: Block) {
    && Linked(ptr, size, free) && Gapped(free) && Sized(free) && Slot(free, t, b.addr)
    && 0 < b.units && b.addr in size && size[b.addr] == b.units
    && NotListed(free, b.addr)
  }

  /** Headers away from the block and its lower neighbour are as they were. */
  lemma OldHeader(ptr: map<int, int>, size: map<int, int>, free: seq<Block>, t: int, b: Block, j: int,
                  ptr': map<int, int>, size': map<int, int>)
    requires Relinkable(ptr, size, free, t, b) && 0 <= j < |free| && j != t
    requires forall x :: x in ptr && x != b.addr && x != free[t].addr ==> x in ptr' && ptr'[x] == ptr[x]
    requires forall x :: x in size && x != b.addr && x != free[t].addr ==> x in size' && size'[x] == size[x]
    ensures Header(ptr', size', free[j], free[Nxt(free, j)].addr)
  {
    LinkedAt(ptr, size, free, j);
    assert j < t ==> End(free[j]) < free[t].addr;
    assert t < j ==> End(free[t]) < free[j].addr;
  }

  /** The ring when the block does not join its lower neighbour. */
  lemma RelinkInsert(ptr: map<int, int>, size: map<int, int>, free: seq<Block>, t: int, b: Block, next: int)
    requires Relinkable(ptr, size, free, t, b) && !JoinsLower(free, t, b)
    requires next == free[if JoinsUpper(free, t, b) then Nxt(free, t + 1) else Nxt(free, t)].addr
    ensures Linked(ptr[b.addr := next][free[t].addr := b.addr], size[b.addr := Upper(free, t, b).units],
                   Insert(free, t, b))
  {
    var list := Insert(free, t, b);
    forall i | 0 <= i < |list|
      ensures Header(ptr[b.addr := next][free[t].addr := b.addr], size[b.addr := Upper(free, t, b).units],
                     list[i], list[Nxt(list, i)].addr)
    {
      if i == t || i == t + 1 {
        RelinkNear(ptr, size, free, t, b, next, i);
      } else {
        RelinkFar(ptr, size, free, t, b, next, i);
      }
    }
  }

  lemma RelinkNear(ptr: map<int, int>, size: map<int, int>, free: seq<Block>, t: int, b: Block, next: int, i: int)
    requires Relinkable(ptr, size, free, t, b) && !JoinsLower(free, t, b)
    requires next == free[if JoinsUpper(free, t, b) then Nxt(free, t + 1) else Nxt(free, t)].addr
    requires 0 <= i < |Insert(free, t, b)| && (i == t || i == t + 1)
    ensures var list := Insert(free, t, b);
            Header(ptr[b.addr := next][free[t].addr := b.addr], size[b.addr := Upper(free, t, b).units],
                   list[i], list[Nxt(list, i)].addr)
  {
    InsertShape(free, t, b, i);
    InsertNext(free, t, b, i);
    LinkedAt(ptr, size, free, t);
  }

  lemma RelinkFar(ptr: map<int, int>, size: map<int, int>, free: seq<Block>, t: int, b: Block, next: int, i: int)
    requires Relinkable(ptr, size, free, t, b) && !JoinsLower(free, t, b)
    requires 0 <= i < |Insert(free, t, b)| && i != t && i != t + 1
    ensures var list := Insert(free, t, b);
            Header(ptr[b.addr := next][free[t].addr := b.addr], size[b.addr := Upper(free, t, b).units],
                   list[i], list[Nxt(list, i)].addr)
  {
    InsertShape(free, t, b, i);
    InsertNext(free, t, b, i);
    var j := if i < t then i else if JoinsUpper(free, t, b) then i else i - 1;
    OldHeader(ptr, size, free, t, b, j,
              ptr[b.addr := next][free[t].addr := b.addr], size[b.addr := Upper(free, t, b).units]);
  }

  /** The ring when the block joins its lower neighbour. */
  lemma RelinkJoin(ptr: map<int, int>, size: map<int, int>, free: seq<Block>, t: int, b: Block, next: int)
    requires Relinkable(ptr, size, free, t, b) && JoinsLower(free, t, b)
    requires next == free[if JoinsUpper(free, t, b) then Nxt(free, t + 1) else Nxt(free, t)].addr
    ensures Linked(ptr[b.addr := next][free[t].addr := next],
                   size[b.addr := Upper(free, t, b).units][free[t].addr := free[t].units + Upper(free, t, b).units],
                   Insert(free, t, b))
  {
    var list := Insert(free, t, b);
    var ptr' := ptr[b.addr := next][free[t].addr := next];
    var size' := size[b.addr := Upper(free, t, b).units][free[t].addr := free[t].units + Upper(free, t, b).units];
    forall i | 0 <= i < |list| ensures Header(ptr', size', list[i], list[Nxt(list, i)].addr) {
      if i == t {
        JoinShape(free, t, b, i);
        JoinNext(free, t, b, i);
      } else {
        RelinkJoinFar(ptr, size, free, t, b, next, i);
      }
    }
  }

  lemma RelinkJoinFar(ptr: map<int, int>, size: map<int, int>, free: seq<Block>, t: int, b: Block, next: int, i: int)
    requires Relinkable(ptr, size, free, t, b) && JoinsLower(free, t, b)
    requires 0 <= i < |Insert(free, t, b)| && i != t
    ensures var list := Insert(free, t, b);
            Header(ptr[b.addr := next][free[t].addr := next],
                   size[b.addr := Upper(free, t, b).units][free[t].addr := free[t].units + Upper(free, t, b).units],
                   list[i], list[Nxt(list, i)].addr)
  {
    JoinShape(free, t, b, i);
    JoinNext(free, t, b, i);
    OldHeader(ptr, size, free, t, b, if i < t then i else if JoinsUpper(free, t, b) then i + 1 else i,
              ptr[b.addr := next][free[t].addr := next],
              size[b.addr := Upper(free, t, b).units][free[t].addr := free[t].units + Upper(free, t, b).units]);
  }

  /** `free` links the block in at its slot. */
  lemma Relinked(ptr: map<int, int>, size: map<int, int>, free: seq<Block>, t: int, b: Block)
    requires Relinkable(ptr, size, free, t, b)
    ensures var p, bp := free[t].addr, b.addr;
            && p in ptr && p in size && ptr[p] in ptr && ptr[p] in size
            && Linked(PtrLower(PtrUpper(ptr, size, p, bp), SizeUpper(ptr, size, p, bp), p, bp),
                      SizeLower(SizeUpper(ptr, size, p, bp), p, bp), Insert(free, t, b))
  {
    LinkedAt(ptr, size, free, t);
    UpperTest(ptr, size, free, t, b);
    var next := free[if JoinsUpper(free, t, b) then Nxt(free, t + 1) else Nxt(free, t)].addr;
    if JoinsLower(free, t, b) {
      RelinkJoin(ptr, size, free, t, b, next);
    } else {
      RelinkInsert(ptr, size, free, t, b, next);
    }
  }

  /** Linking in a block leaves the sizes of the live blocks alone. */
  lemma RelinkedSizes(ptr: map<int, int>, size: map<int, int>, free: seq<Block>, t: int, b: Block, x: int)
    requires Relinkable(ptr, size, free, t, b) && x in size && x != b.addr && x != free[t].addr
    requires free[t].addr in ptr && free[t].addr in size && ptr[free[t].addr] in size
    ensures var size' := SizeLower(SizeUpper(ptr, size, free[t].addr, b.addr), free[t].addr, b.addr);
            x in size' && size'[x] == size[x]
  {
  }

  lemma SlotExists(free: seq<Block>, bp: int) returns (t: int)
    requires Gapped(free) && Sized(free) && free[0].addr < bp
    requires NotListed(free, bp)
    ensures Slot(free, t, bp)
  {
    t := 0;
    while t + 1 < |free| && free[t + 1].addr < bp
      invariant 0 <= t < |free| && free[t].addr < bp
    {
      t := t + 1;
    }
  }

  /** The two tests of the search loop recognise the slot and nothing else. */
  lemma SlotTests(free: seq<Block>, k: int, bp: int, t: int)
    requires Gapped(free) && Sized(free) && 0 <= k < |free| && Slot(free, t, bp) && free[0].addr < bp
    ensures SlotTest(free[k].addr, free[Nxt(free, k)].addr, bp) <==> k == t
  {
    if k < t {
      assert End(free[k]) < free[k + 1].addr;
      if k + 1 < t {
        assert End(free[k + 1]) < free[t].addr;
      }
    } else if t < k {
      assert t + 1 < k ==> End(free[t + 1]) < free[k].addr;
    }
    if k + 1 < |free| {
      assert End(free[k]) < free[k + 1].addr;
    } else if k > 0 {
      assert End(free[0]) < free[k].addr;
    }
  }

  lemma SlotHere(ptr: map<int, int>, size: map<int, int>, free: seq<Block>, k: int, bp: int, t: int)
    requires Linked(ptr, size, free) && Gapped(free) && Sized(free)
    requires 0 <= k < |free| && Slot(free, t, bp) && free[0].addr < bp
    ensures var p := free[k].addr;
            p in ptr && ptr[p] == free[Nxt(free, k)].addr && (SlotTest(p, ptr[p], bp) <==> k == t)
  {
    LinkedAt(ptr, size, free, k);
    SlotTests(free, k, bp, t);
  }

  // --- ownership -------------------------------------------------------------------------------

  lemma NothingCommon(x: Block, y: Block)
    requires 0 < x.units && 0 < y.units
    requires forall a :: !(InBlock(x, a) && InBlock(y, a))
    ensures x.addr != y.addr && (End(x) <= y.addr || End(y) <= x.addr)
  {
    var m := if x.addr < y.addr then y.addr else x.addr;
    assert !(InBlock(x, m) && InBlock(y, m));
  }

  lemma LiveIsNotFree(free: seq<Block>, live: map<int, int>, obtained: set<int>, b: int)
    requires Owned(free, live, obtained) && Gapped(free) && Sized(free) && b in live && free[0].addr < b
    ensures Apart(free, Block(b, live[b]))
    ensures NotListed(free, b)
  {
    var x := Block(b, live[b]);
    forall i | 0 < i < |free|
      ensures free[i].addr != b && (End(free[i]) <= b || End(x) <= free[i].addr)
    {
      forall a: int ensures !(InBlock(free[i], a) && InBlock(x, a)) {
        assert InBlock(free[i], a) ==> Covered(free, a);
        assert InBlock(x, a) ==> InLive(live, a);
      }
      NothingCommon(free[i], x);
    }
  }

  lemma LiveWithout(live: map<int, int>, b: int, a: int)
    requires LiveApart(live) && b in live
    ensures InLive(live - {b}, a) <==> InLive(live, a) && !InBlock(Block(b, live[b]), a)
  {
    var rest := live - {b};
    if InLive(live, a) && !InBlock(Block(b, live[b]), a) {
      var c :| c in live && InBlock(Block(c, live[c]), a);
      assert c in rest && rest[c] == live[c];
    }
    if c :| c in rest && InBlock(Block(c, rest[c]), a) {
      assert c in live && rest[c] == live[c];
      assert b < c || c < b;
    }
  }

  lemma FreedOwned(free: seq<Block>, t: int, live: map<int, int>, obtained: set<int>, b: int)
    requires Owned(free, live, obtained) && Sized(free) && b in live && Slot(free, t, b)
    ensures Owned(Insert(free, t, Block(b, live[b])), live - {b}, obtained)
  {
    var x := Block(b, live[b]);
    forall a
      ensures Covered(Insert(free, t, x), a) <==> Covered(free, a) || InBlock(x, a)
      ensures InLive(live - {b}, a) <==> InLive(live, a) && !InBlock(x, a)
      ensures InBlock(x, a) ==> InLive(live, a)
    {
      InsertCovers(free, t, x, a);
      LiveWithout(live, b, a);
    }
  }

  lemma LiveSizesKept(ptr: map<int, int>, size: map<int, int>, free: seq<Block>, t: int,
                      live: map<int, int>, obtained: set<int>, bp: int)
    requires bp in live && Relinkable(ptr, size, free, t, Block(bp, live[bp]))
    requires Owned(free, live, obtained)
    requires forall x :: x in live ==> free[0].addr < x && x in size && size[x] == live[x]
    requires free[t].addr in ptr && free[t].addr in size && ptr[free[t].addr] in size
    ensures var size' := SizeLower(SizeUpper(ptr, size, free[t].addr, bp), free[t].addr, bp);
            forall x :: x in live && x != bp ==> x in size' && size'[x] == live[x]
  {
    forall x | x in live && x != bp
      ensures var size' := SizeLower(SizeUpper(ptr, size, free[t].addr, bp), free[t].addr, bp);
              x in size' && size'[x] == live[x]
    {
      LiveIsNotFree(free, live, obtained, x);
      RelinkedSizes(ptr, size, free, t, Block(bp, live[bp]), x);
    }
  }

  lemma FreedList(free: seq<Block>, t: int, live: map<int, int>, obtained: set<int>, bp: int, brk: int)
    requires Owned(free, live, obtained) && Bounded(free, live, brk) && Gapped(free) && Sized(free)
    requires bp in live && Slot(free, t, bp)
    ensures var list := Insert(free, t, Block(bp, live[bp]));
            && Gapped(list) && Sized(list)
            && Owned(list, live - {bp}, obtained) && Bounded(list, live - {bp}, brk)
  {
    var b := Block(bp, live[bp]);
    LiveIsNotFree(free, live, obtained, bp);
    InsertGapped(free, t, b);
    InsertSized(free, t, b);
    FreedOwned(free, t, live, obtained, bp);
    FreedBounded(free, t, live, bp, brk);
  }

  lemma FreedBounded(free: seq<Block>, t: int, live: map<int, int>, b: int, brk: int)
    requires Bounded(free, live, brk) && Sized(free) && Gapped(free) && LiveApart(live) && b in live && Slot(free, t, b)
    ensures Bounded(Insert(free, t, Block(b, live[b])), live - {b}, brk)
  {
    var x := Block(b, live[b]);
    InsertSized(free, t, x);
    forall i | 0 < i < |Insert(free, t, x)| ensures End(Insert(free, t, x)[i]) <= brk {
      InsertBelow(free, t, x, i, brk);
    }
  }

  /** The blocks of the new list end where old blocks end, or at the end of the new one. */
  lemma InsertBelow(free: seq<Block>, t: int, b: Block, i: int, brk: int)
    requires Slot(free, t, b.addr) && 0 < i < |Insert(free, t, b)| && End(b) <= brk
    requires forall j :: 0 < j < |free| ==> End(free[j]) <= brk
    ensures End(Insert(free, t, b)[i]) <= brk
  {
    UpperBelow(free, t, b, brk);
    if JoinsLower(free, t, b) {
      JoinShape(free, t, b, i);
    } else {
      InsertShape(free, t, b, i);
    }
  }

  lemma UpperBelow(free: seq<Block>, t: int, b: Block, brk: int)
    requires 0 <= t < |free| && End(b) <= brk && forall j :: 0 < j < |free| ==> End(free[j]) <= brk
    ensures End(Upper(free, t, b)) <= brk
  {
    if JoinsUpper(free, t, b) {
      assert End(free[t + 1]) <= brk;
    }
  }

  /** The heap after `free`. */
  ghost function Freed(h: Heap, t: int, bp: int): Heap
    requires 0 <= t < |h.free| && bp in h.live && bp in h.size
    requires var p := h.free[t].addr; p in h.ptr && p in h.size && h.ptr[p] in h.ptr && h.ptr[p] in h.size
  {
    var p := h.free[t].addr;
    var size1 := SizeUpper(h.ptr, h.size, p, bp);
    h.(ptr := PtrLower(PtrUpper(h.ptr, h.size, p, bp), size1, p, bp), size := SizeLower(size1, p, bp),
       freep := p, free := Insert(h.free, t, Block(bp, h.live[bp])), at := t, live := h.live - {bp})
  }

  lemma FreeOk(h: Heap, t: int, bp: int)
    requires Ok(h) && h.freep != 0 && bp in h.live && Slot(h.free, t, bp)
    ensures var p := h.free[t].addr; p in h.ptr && p in h.size && h.ptr[p] in h.ptr && h.ptr[p] in h.size
    ensures Ok(Freed(h, t, bp))
  {
    var b := Block(bp, h.live[bp]);
    LiveIsNotFree(h.free, h.live, h.obtained, bp);
    Relinked(h.ptr, h.size, h.free, t, b);
    LiveSizesKept(h.ptr, h.size, h.free, t, h.live, h.obtained, bp);
    FreedList(h.free, t, h.live, h.obtained, bp, h.brk);
    InsertReach(h.free, t, b);
  }

  lemma InsertReach(free: seq<Block>, t: int, b: Block)
    requires 0 <= t < |free|
    ensures t < |Insert(free, t, b)| && Insert(free, t, b)[t].addr == free[t].addr
  {
  }

  // --- more memory ---------------------------------------------------------------------------

  function Rounded(nu: int): int {
    if nu < MIN_UNITS then MIN_UNITS else nu
  }

  function Units(addr: int, n: int): set<int> {
    set a | addr <= a < addr + n && InBlock(Block(addr, n), a)
  }

  /** What `sbrk` may answer: it never gives memory below the break, and the request fits its
      `int` argument. */
  predicate Grantable(brk: int, nu: int, grant: Option<int>) {
    && 0 < nu && Rounded(nu) <= SBRK_LIMIT
    && (grant.Some? ==> brk <= grant.value && grant.value + Rounded(nu) < UINT_LIMIT)
  }

  ghost function Granted(h: Heap, addr: int, n: int): Heap {
    h.(size := h.size[addr := n], brk := addr + n, live := h.live[addr := n], obtained := h.obtained + Units(addr, n))
  }

  lemma LiveWith(live: map<int, int>, b: int, n: int, a: int)
    requires b !in live
    ensures InLive(live[b := n], a) <==> InLive(live, a) || InBlock(Block(b, n), a)
  {
    var more := live[b := n];
    if c :| c in live && InBlock(Block(c, live[c]), a) {
      assert c in more && more[c] == live[c];
    }
    if InBlock(Block(b, n), a) {
      assert b in more && more[b] == n;
    }
  }

  lemma BelowBreak(h: Heap, a: int)
    requires Ok(h)
    ensures a in h.obtained ==> a < h.brk
  {
    if a in h.obtained {
      if Covered(h.free, a) {
        var i :| 0 <= i < |h.free| && InBlock(h.free[i], a);
      } else {
        var b :| b in h.live && InBlock(Block(b, h.live[b]), a);
      }
    }
  }

  lemma GrantOwned(h: Heap, addr: int, n: int)
    requires Ok(h) && h.brk <= addr && 0 < n
    ensures Owned(h.free, h.live[addr := n], h.obtained + Units(addr, n))
  {
    forall a
      ensures InLive(h.live[addr := n], a) <==> InLive(h.live, a) || InBlock(Block(addr, n), a)
      ensures a in Units(addr, n) <==> InBlock(Block(addr, n), a)
      ensures a in h.obtained ==> a < h.brk
    {
      LiveWith(h.live, addr, n, a);
      BelowBreak(h, a);
    }
  }

  lemma GrantLinked(h: Heap, addr: int, n: int)
    requires Ok(h) && h.freep != 0 && h.brk <= addr
    ensures Linked(h.ptr, h.size[addr := n], h.free)
  {
    forall i | 0 <= i < |h.free| ensures Header(h.ptr, h.size[addr := n], h.free[i], h.free[Nxt(h.free, i)].addr) {
      LinkedAt(h.ptr, h.size, h.free, i);
      assert h.free[i].addr < h.brk;
    }
  }

  lemma GrantOk(h: Heap, addr: int, n: int)
    requires Ok(h) && h.freep != 0 && h.brk <= addr && 0 < n && addr + n < UINT_LIMIT
    ensures addr !in h.live && Ok(Granted(h, addr, n))
  {
    GrantOwned(h, addr, n);
    GrantLinked(h, addr, n);
  }

  /** The block that was just freed is at the slot or right after it. */
  lemma InsertRoom(free: seq<Block>, t: int, b: Block) returns (g: int)
    requires Sized(free) && Slot(free, t, b.addr) && 0 < b.units
    ensures var list := Insert(free, t, b);
            && t < |list| && 0 <= g < |list| && b.units <= list[g].units && (g == t || g == Nxt(list, t))
  {
    if JoinsLower(free, t, b) {
      g := t;
      JoinShape(free, t, b, t);
    } else {
      g := t + 1;
      InsertShape(free, t, b, t + 1);
    }
  }

  // --- carving --------------------------------------------------------------------------------

  ghost function Carved(h: Heap, k: int, n: int): Heap
    requires 0 < k < |h.free| && h.free[k].addr in h.ptr && h.free[k].addr in h.size
  {
    var p, prevp, r := h.free[k].addr, h.free[k - 1].addr, Taken(h.free, k, n).addr;
    h.(ptr := if h.free[k].units == n then h.ptr[prevp := h.ptr[p]] else h.ptr,
       size := if h.free[k].units == n then h.size else h.size[p := h.size[p] - n][r := n],
       freep := prevp, free := Take(h.free, k, n), at := k - 1, live := h.live[r := n])
  }

  lemma TakenIsNotLive(h: Heap, k: int, n: int)
    requires Ok(h) && 0 < k < |h.free| && 0 < n <= h.free[k].units
    ensures forall b :: b in h.live ==>
              var r := Taken(h.free, k, n);
              b != r.addr && b != h.free[k].addr && (b + h.live[b] <= r.addr || End(r) <= b)
  {
    forall b | b in h.live
      ensures var r := Taken(h.free, k, n);
              b != r.addr && b != h.free[k].addr && (b + h.live[b] <= r.addr || End(r) <= b)
    {
      LiveIsNotFree(h.free, h.live, h.obtained, b);
    }
  }

  lemma CarveOwned(h: Heap, k: int, n: int)
    requires Ok(h) && 0 < k < |h.free| && 0 < n <= h.free[k].units
    ensures Owned(Take(h.free, k, n), h.live[Taken(h.free, k, n).addr := n], h.obtained)
  {
    var r := Taken(h.free, k, n);
    TakenIsNotLive(h, k, n);
    forall a
      ensures InLive(h.live[r.addr := n], a) <==> InLive(h.live, a) || InBlock(r, a)
      ensures Covered(Take(h.free, k, n), a) <==> Covered(h.free, a) && !InBlock(r, a)
      ensures InBlock(r, a) ==> Covered(h.free, a)
    {
      LiveWith(h.live, r.addr, n, a);
      TakeCovers(h.free, k, n, a);
    }
  }

  lemma CarveBounded(h: Heap, k: int, n: int)
    requires Ok(h) && 0 < k < |h.free| && 0 < n <= h.free[k].units
    ensures Bounded(Take(h.free, k, n), h.live[Taken(h.free, k, n).addr := n], h.brk)
  {
  }

  lemma UnlinkNext(free: seq<Block>, k: int, i: int)
    requires 0 < k < |free| && 0 <= i < |free| - 1
    ensures var list := free[..k] + free[k + 1..];
            && list[i] == free[if i < k then i else i + 1]
            && list[Nxt(list, i)].addr
            == if i == k - 1 then free[Nxt(free, k)].addr else free[Nxt(free, if i < k then i else i + 1)].addr
  {
  }

  /** Unlinking a whole block. */
  lemma UnlinkLinked(ptr: map<int, int>, size: map<int, int>, free: seq<Block>, k: int)
    requires Linked(ptr, size, free) && Gapped(free) && Sized(free) && 0 < k < |free|
    ensures free[k].addr in ptr
    ensures Linked(ptr[free[k - 1].addr := ptr[free[k].addr]], size, free[..k] + free[k + 1..])
  {
    var list := free[..k] + free[k + 1..];
    LinkedAt(ptr, size, free, k);
    var ptr' := ptr[free[k - 1].addr := ptr[free[k].addr]];
    forall i | 0 <= i < |list| ensures Header(ptr', size, list[i], list[Nxt(list, i)].addr) {
      UnlinkNext(free, k, i);
      var j := if i < k then i else i + 1;
      LinkedAt(ptr, size, free, j);
      assert j < k - 1 ==> End(free[j]) < free[k - 1].addr;
      assert k - 1 < j ==> End(free[k - 1]) < free[j].addr;
    }
  }

  /** Shortening a block and writing the header of what was cut off. */
  lemma ShrinkLinked(ptr: map<int, int>, size: map<int, int>, free: seq<Block>, k: int, n: int)
    requires Linked(ptr, size, free) && Gapped(free) && Sized(free) && 0 < k < |free| && 0 < n < free[k].units
    ensures Linked(ptr, size[free[k].addr := free[k].units - n][Taken(free, k, n).addr := n],
                   free[k := Block(free[k].addr, free[k].units - n)])
  {
    var list := free[k := Block(free[k].addr, free[k].units - n)];
    var size' := size[free[k].addr := free[k].units - n][Taken(free, k, n).addr := n];
    forall i | 0 <= i < |list| ensures Header(ptr, size', list[i], list[Nxt(list, i)].addr) {
      LinkedAt(ptr, size, free, i);
      assert i < k ==> End(free[i]) < free[k].addr;
      assert k < i ==> End(free[k]) < free[i].addr;
    }
  }

  lemma CarveLinked(h: Heap, k: int, n: int)
    requires Ok(h) && h.freep != 0 && 0 < k < |h.free| && 0 < n <= h.free[k].units
    requires h.free[k].addr in h.ptr && h.free[k].addr in h.size && h.size[h.free[k].addr] == h.free[k].units
    ensures Linked(Carved(h, k, n).ptr, Carved(h, k, n).size, Take(h.free, k, n))
  {
    if h.free[k].units == n {
      UnlinkLinked(h.ptr, h.size, h.free, k);
    } else {
      ShrinkLinked(h.ptr, h.size, h.free, k, n);
    }
  }

  lemma CarveOk(h: Heap, k: int, n: int)
    requires Ok(h) && h.freep != 0 && 0 < k < |h.free| && 0 < n <= h.free[k].units
    ensures h.free[k].addr in h.ptr && h.free[k].addr in h.size && h.size[h.free[k].addr] == h.free[k].units
    ensures Taken(h.free, k, n).addr !in h.live && BASE < Taken(h.free, k, n).addr
    ensures Ok(Carved(h, k, n))
  {
    LinkedAt(h.ptr, h.size, h.free, k);
    TakeKeeps(h.free, k, n);
    CarveOwned(h, k, n);
    CarveBounded(h, k, n);
    TakenIsNotLive(h, k, n);
    CarveLinked(h, k, n);
  }

  // --- walking round the ring -------------------------------------------------------------------

  function Prev(free: seq<Block>, i: int): int {
    if i > 0 then i - 1 else |free| - 1
  }

  lemma SameIndex(free: seq<Block>, i: int, j: int)
    requires Gapped(free) && Sized(free) && 0 <= i < |free| && 0 <= j < |free| && free[i].addr == free[j].addr
    ensures i == j
  {
  }

  lemma StepDist(free: seq<Block>, k: int, at: int)
    requires 0 <= k < |free| && 0 <= at < |free|
    ensures Prev(free, Nxt(free, k)) == k
    ensures k != at ==> Dist(free, Nxt(free, k), at) == Dist(free, k, at) - 1
    ensures k == at ==> Dist(free, Nxt(free, k), at) == |free| - 1
    ensures forall i :: 0 <= i < |free| ==> 0 <= Dist(free, i, at) < |free|
  {
  }

  /** Blocks at the same distance are the same block. */
  lemma SameDist(free: seq<Block>, i: int, j: int, at: int)
    requires 0 <= at < |free| && 0 <= i < |free| && 0 <= j < |free| && Dist(free, i, at) == Dist(free, j, at)
    ensures i == j
  {
  }

  /** The walk starts at the block after `at`, which is the farthest from `at`. */
  lemma FirstStep(ptr: map<int, int>, size: map<int, int>, free: seq<Block>, at: int, n: int)
    requires Linked(ptr, size, free) && 0 <= at < |free|
    ensures Header(ptr, size, free[at], free[Nxt(free, at)].addr) && 0 <= Nxt(free, at) < |free|
    ensures Prev(free, Nxt(free, at)) == at && SmallBefore(free, Nxt(free, at), at, n)
  {
    LinkedAt(ptr, size, free, at);
    StepDist(free, at, at);
  }

  lemma SearchStep(ptr: map<int, int>, size: map<int, int>, free: seq<Block>, k: int, at: int, n: int)
    requires Linked(ptr, size, free) && Gapped(free) && Sized(free)
    requires 0 <= at < |free| && 0 <= k < |free| && SmallBefore(free, k, at, n)
    ensures Header(ptr, size, free[k], free[Nxt(free, k)].addr) && (free[k].addr == free[at].addr <==> k == at)
    ensures free[k].units < n && k == at ==> !Fits(free, n)
    ensures free[k].units < n && k != at ==>
              && 0 <= Nxt(free, k) < |free| && Prev(free, Nxt(free, k)) == k
              && 0 <= Dist(free, Nxt(free, k), at) < Dist(free, k, at) && SmallBefore(free, Nxt(free, k), at, n)
  {
    LinkedAt(ptr, size, free, k);
    StepDist(free, k, at);
    if free[k].addr == free[at].addr {
      SameIndex(free, k, at);
    }
    forall i | 0 <= i < |free| && Dist(free, k, at) <= Dist(free, i, at) && free[k].units < n
      ensures free[i].units < n
    {
      if Dist(free, k, at) == Dist(free, i, at) {
        SameDist(free, k, i, at);
      }
    }
  }

  lemma RingOf(h: Heap)
    requires Ok(h) && h.freep != 0
    ensures Ring(h.ptr, h.size, h.free, h.freep, h.at)
  {
  }

  /** A block that fits a request is not the static header. */
  lemma FoundAt(h: Heap, k: int, n: int)
    requires Ok(h) && 0 <= k < |h.free| && 0 < n <= h.free[k].units
    ensures 0 < k && Prev(h.free, k) == k - 1 && Fits(h.free, n)
  {
  }

  lemma ReadyToFree(h: Heap, bp: int)
    requires Ok(h) && bp in h.live
    ensures h.freep != 0 && Ring(h.ptr, h.size, h.free, h.freep, h.at) && h.free[0].addr < bp && NotListed(h.free, bp)
  {
    LiveIsNotFree(h.free, h.live, h.obtained, bp);
  }

  lemma AddDrop(live: map<int, int>, b: int, n: int)
    requires b !in live
    ensures live[b := n] - {b} == live
  {
  }

  // --- conservation --------------------------------------------------------------------------------

  ghost function FreeUnits(h: Heap): set<int> {
    set a | a in h.obtained && Covered(h.free, a)
  }

  ghost function LiveUnits(h: Heap): set<int> {
    set a | a in h.obtained && InLive(h.live, a)
  }

  /** Free and allocated units add up to the units obtained from `sbrk`. */
  lemma Conservation(h: Heap)
    requires Ok(h)
    ensures FreeUnits(h) !! LiveUnits(h)
    ensures FreeUnits(h) + LiveUnits(h) == h.obtained
    ensures |FreeUnits(h)| + |LiveUnits(h)| == |h.obtained|
    ensures forall a :: Covered(h.free, a) ==> a in FreeUnits(h)
    ensures forall a :: InLive(h.live, a) ==> a in LiveUnits(h)
  {
    assert FreeUnits(h) + LiveUnits(h) == h.obtained;
  }

  /** Live blocks never overlap each other. */
  lemma LiveBlocksApart(h: Heap, b: int, c: int, a: int)
    requires Ok(h) && b in h.live && c in h.live
    requires InBlock(Block(b, h.live[b]), a) && InBlock(Block(c, h.live[c]), a)
    ensures b == c
  {
  }
}
