/** Adding blocks to an inode, and taking all of them away. */
module FsExtend {
  import opened FsLayout

  /** The bitmap blocks of a list of blocks. */
  function Bitmaps(g: Geometry, allocs: seq<int>): set<int> {
    set a | a in allocs :: BitmapBlock(g, a)
  }

  /** A slot keeps its block; an empty slot of inode `i` may get a block that was free. */
  predicate SameOrNew(fs0: Fs, fs: Fs, i: int, j: int, l: int) {
    var was, now := Slot(fs0, j, l), Slot(fs, j, l);
    if was != 0 || j != i then now == was else now == 0 || (0 <= now < |fs0.used| && !fs0.used[now])
  }

  /** A block in use stays in use, and keeps its contents unless it is the indirect block. */
  predicate ContentKept(fs0: Fs, fs: Fs, i: int, x: int) {
    0 <= x < |fs0.used| && fs0.used[x] && x < |fs0.blocks| ==>
      && x < |fs.used| && fs.used[x] && x < |fs.blocks|
      && (x != Slot(fs0, i, INDIRECT) ==> fs.blocks[x] == fs0.blocks[x])
  }

  predicate Logged(g: Geometry, fs0: Fs, fs: Fs, i: int, lo: int, hi: int, allocs: seq<int>, x: int) {
    x in fs.logged ==>
      || x in fs0.logged || x in Bitmaps(g, allocs)
      || (x != 0 && x == Slot(fs, i, INDIRECT)) || DataBlock(fs, i, lo, hi, x)
  }

  /** `x` holds a block of the file with a number from `lo` to `hi`. */
  predicate DataBlock(fs: Fs, i: int, lo: int, hi: int, x: int) {
    exists bn :: lo <= bn < hi && IsBlockOf(fs, i, bn, x)
  }

  predicate IsBlockOf(fs: Fs, i: int, bn: int, x: int) {
    x != 0 && Slot(fs, i, DataSlot(bn)) == x
  }

  predicate SizeKept(fs0: Fs, fs: Fs, j: int) {
    j in fs0.inodes ==> j in fs.inodes && fs.inodes[j].size == fs0.inodes[j].size
  }

  /** Blocks have been added to inode `i`: `allocs` lists them.  Nothing else has changed, and
      what was logged is the bitmap, the indirect block and blocks `lo` to `hi` of the file. */
  ghost predicate Extended(g: Geometry, fs0: Fs, fs: Fs, i: int, lo: int, hi: int, allocs: seq<int>) {
    && Own(g, fs) && fs.inodes.Keys == fs0.inodes.Keys
    && (forall j :: SizeKept(fs0, fs, j))
    && (forall j, l :: SameOrNew(fs0, fs, i, j, l))
    && (forall x :: ContentKept(fs0, fs, i, x))
    && (forall x :: Logged(g, fs0, fs, i, lo, hi, allocs, x))
  }

  lemma ExtendedSame(g: Geometry, fs: Fs, i: int, lo: int, hi: int)
    requires Own(g, fs)
    ensures Extended(g, fs, fs, i, lo, hi, [])
  {
  }

  /** One fill: of the indirect slot, or of the slot of block `bn`. */
  lemma FillExtends(g: Geometry, fs: Fs, b: int, i: int, k: int, bn: int)
    requires Own(g, fs) && Fillable(g, fs, b, i, k) && (k == INDIRECT || k == DataSlot(bn))
    ensures Extended(g, fs, Filled(g, fs, b, i, k), i, bn, bn + 1, [b])
    ensures Slot(Filled(g, fs, b, i, k), i, k) == b
            && (k != INDIRECT ==> Filled(g, fs, b, i, k).blocks[b] == ZeroBlock())
  {
    var fs' := Filled(g, fs, b, i, k);
    FilledOwn(g, fs, b, i, k);
    forall j, l ensures SameOrNew(fs, fs', i, j, l) {
      FillSlot(g, fs, b, i, k, j, l);
    }
    FillSlot(g, fs, b, i, k, i, k);
    FillSlot(g, fs, b, i, k, i, INDIRECT);
    assert SlotOk(g, fs, i, INDIRECT);
    forall x ensures ContentKept(fs, fs', i, x) {
    }
    var hi, allocs := bn + 1, [b];
    forall x ensures Logged(g, fs, fs', i, bn, hi, allocs, x) {
      assert b in allocs;
      assert k != INDIRECT ==> IsBlockOf(fs', i, bn, b);
    }
  }

  lemma LoggedTrans(g: Geometry, fs0: Fs, fs1: Fs, fs2: Fs, i: int, lo: int, mid: int, lo': int, hi: int,
                    a1: seq<int>, a2: seq<int>, all: seq<int>, x: int)
    requires Logged(g, fs0, fs1, i, lo, mid, a1, x) && Logged(g, fs1, fs2, i, lo', hi, a2, x) && lo <= lo'
             && mid <= hi && all == a1 + a2
    requires forall j, l :: SameOrNew(fs1, fs2, i, j, l)
    ensures Logged(g, fs0, fs2, i, lo, hi, all, x)
  {
    if x in fs2.logged && x in fs1.logged {
      assert SameOrNew(fs1, fs2, i, i, INDIRECT);
      if bn :| lo <= bn < mid && IsBlockOf(fs1, i, bn, x) {
        assert SameOrNew(fs1, fs2, i, i, DataSlot(bn));
        assert IsBlockOf(fs2, i, bn, x);
      }
      if a :| a in a1 && BitmapBlock(g, a) == x {
        assert a in all;
      }
    } else if x in fs2.logged {
      if bn :| lo' <= bn < hi && IsBlockOf(fs2, i, bn, x) {
      }
      if a :| a in a2 && BitmapBlock(g, a) == x {
        assert a in all;
      }
    }
  }

  lemma ExtendedTrans(g: Geometry, fs0: Fs, fs1: Fs, fs2: Fs, i: int, lo: int, mid: int, lo': int, hi: int,
                      a1: seq<int>, a2: seq<int>)
    requires Own(g, fs0) && Extended(g, fs0, fs1, i, lo, mid, a1) && Extended(g, fs1, fs2, i, lo', hi, a2)
             && lo <= lo' && mid <= hi
    ensures Extended(g, fs0, fs2, i, lo, hi, a1 + a2)
  {
    forall j, l ensures SameOrNew(fs0, fs2, i, j, l) {
      assert SameOrNew(fs0, fs1, i, j, l) && SameOrNew(fs1, fs2, i, j, l) && ContentKept(fs0, fs1, i, Slot(fs2, j, l));
    }
    forall x ensures ContentKept(fs0, fs2, i, x) {
      assert ContentKept(fs0, fs1, i, x) && ContentKept(fs1, fs2, i, x) && SameOrNew(fs0, fs1, i, i, INDIRECT);
    }
    forall j ensures SizeKept(fs0, fs2, j) {
      assert SizeKept(fs0, fs1, j) && SizeKept(fs1, fs2, j);
    }
    var all := a1 + a2;
    forall x ensures Logged(g, fs0, fs2, i, lo, hi, all, x) {
      LoggedTrans(g, fs0, fs1, fs2, i, lo, mid, lo', hi, a1, a2, all, x);
    }
  }

  /** How many of the two slots that `bmap` looks at were filled. */
  function NewBlocks(fs0: Fs, fs: Fs, i: int, bn: int): int {
    (if Slot(fs0, i, DataSlot(bn)) == 0 && Slot(fs, i, DataSlot(bn)) != 0 then 1 else 0)
    + (if Slot(fs0, i, INDIRECT) == 0 && Slot(fs, i, INDIRECT) != 0 then 1 else 0)
  }

  /** What `bmap` promises: `addr` is the block of the file, new and zeroed if there was none. */
  ghost predicate BMapped(g: Geometry, fs0: Fs, fs: Fs, i: int, bn: int, addr: int, allocs: seq<int>) {
    && Extended(g, fs0, fs, i, bn, bn + 1, allocs) && |allocs| == NewBlocks(fs0, fs, i, bn)
    && (forall l :: l != INDIRECT && l != DataSlot(bn) ==> Slot(fs, i, l) == Slot(fs0, i, l))
    && addr == Slot(fs, i, DataSlot(bn))
    && (addr != 0 && Slot(fs0, i, DataSlot(bn)) == 0 ==> 0 <= addr < |fs.blocks| && fs.blocks[addr] == ZeroBlock())
    && (Slot(fs0, i, DataSlot(bn)) != 0 ==> fs == fs0)
    && (addr == 0 ==> forall b :: 0 <= b < |fs.used| ==> fs.used[b])
  }

  lemma AlreadyMapped(g: Geometry, fs: Fs, i: int, bn: int)
    requires Own(g, fs) && Slot(fs, i, DataSlot(bn)) != 0
    ensures BMapped(g, fs, fs, i, bn, Slot(fs, i, DataSlot(bn)), [])
  {
    ExtendedSame(g, fs, i, bn, bn + 1);
  }

  lemma DiskFull(g: Geometry, fs: Fs, i: int, bn: int)
    requires Own(g, fs) && Slot(fs, i, DataSlot(bn)) == 0 && forall b :: 0 <= b < |fs.used| ==> fs.used[b]
    ensures BMapped(g, fs, fs, i, bn, 0, [])
  {
    ExtendedSame(g, fs, i, bn, bn + 1);
  }

  lemma DataMapped(g: Geometry, fs: Fs, b: int, i: int, bn: int)
    requires Own(g, fs) && 0 <= bn < MAXFILE && Fillable(g, fs, b, i, DataSlot(bn))
    ensures BMapped(g, fs, Filled(g, fs, b, i, DataSlot(bn)), i, bn, b, [b])
  {
    FillExtends(g, fs, b, i, DataSlot(bn), bn);
    forall l ensures Slot(Filled(g, fs, b, i, DataSlot(bn)), i, l) == if l == DataSlot(bn) then b else Slot(fs, i, l) {
      FillSlot(g, fs, b, i, DataSlot(bn), i, l);
    }
  }

  /** The indirect block was added first. */
  lemma IndirectMapped(g: Geometry, fs0: Fs, b: int, fs2: Fs, i: int, bn: int, addr: int, allocs: seq<int>)
    requires Own(g, fs0) && NDIRECT <= bn < MAXFILE && Fillable(g, fs0, b, i, INDIRECT)
    requires BMapped(g, Filled(g, fs0, b, i, INDIRECT), fs2, i, bn, addr, allocs)
    ensures BMapped(g, fs0, fs2, i, bn, addr, [b] + allocs)
  {
    var fs1 := Filled(g, fs0, b, i, INDIRECT);
    FillExtends(g, fs0, b, i, INDIRECT, bn);
    ExtendedTrans(g, fs0, fs1, fs2, i, bn, bn + 1, bn, bn + 1, [b], allocs);
    forall l ensures Slot(fs1, i, l) == if l == INDIRECT then b else Slot(fs0, i, l) {
      FillSlot(g, fs0, b, i, INDIRECT, i, l);
    }
    assert Slot(fs0, i, DataSlot(bn)) == 0;
    assert SameOrNew(fs1, fs2, i, i, INDIRECT);
  }

  // --- truncation -----------------------------------------------------------------------------------

  lemma FreeNothing(g: Geometry, fs: Fs, i: int)
    requires Own(g, fs)
    ensures FreedBelow(g, fs, i, 0, fs.used)
  {
  }

  /** Freeing the block of slot `n`: it is still in use, so `bfree` does not panic. */
  lemma FreeNext(g: Geometry, fs: Fs, i: int, n: int, used: seq<bool>)
    requires Own(g, fs) && FreedBelow(g, fs, i, n, used) && 0 <= n < SLOTS && n != INDIRECT
    ensures var b := Slot(fs, i, n);
            if b == 0 then FreedBelow(g, fs, i, n + 1, used)
            else 0 < b < g.size && used[b] && FreedBelow(g, fs, i, n + 1, used[b := false])
  {
    var b := Slot(fs, i, n);
    assert SlotOk(g, fs, i, n);
    forall k | b != 0 && 0 <= k < n ensures Slot(fs, i, k) != b {
      assert SlotsApart(fs, i, k, i, n);
    }
    forall c ensures NamedBelow(fs, i, n + 1, c) <==> NamedBelow(fs, i, n, c) || c == b {
      if k :| 0 <= k < n && k != INDIRECT && Slot(fs, i, k) == c {
        assert NamedBelow(fs, i, n + 1, c);
      }
    }
  }

  lemma SkipIndirect(g: Geometry, fs: Fs, i: int, used: seq<bool>)
    requires FreedBelow(g, fs, i, INDIRECT, used)
    ensures FreedBelow(g, fs, i, INDIRECT + 1, used)
  {
    forall c ensures NamedBelow(fs, i, INDIRECT + 1, c) <==> NamedBelow(fs, i, INDIRECT, c) {
    }
  }

  /** Without an indirect block there are no more slots to free. */
  lemma NoIndirect(g: Geometry, fs: Fs, i: int, used: seq<bool>)
    requires FreedBelow(g, fs, i, INDIRECT + 1, used) && Slot(fs, i, INDIRECT) == 0 && i in fs.inodes
             && |fs.inodes[i].addrs| == NDIRECT + 1
    ensures FreedBelow(g, fs, i, SLOTS, used)
  {
    forall c | c > 0 ensures NamedBelow(fs, i, SLOTS, c) <==> NamedBelow(fs, i, INDIRECT + 1, c) {
      if k :| 0 <= k < SLOTS && k != INDIRECT && Slot(fs, i, k) == c {
        assert k < INDIRECT;
      }
    }
  }

  /** After the last data slot and the indirect block, every block of the inode is free. */
  lemma FreeLast(g: Geometry, fs: Fs, i: int, used: seq<bool>)
    requires Own(g, fs) && FreedBelow(g, fs, i, SLOTS, used)
    ensures var b := Slot(fs, i, INDIRECT);
            && (b != 0 ==> 0 < b < g.size && used[b])
            && var used' := if b == 0 then used else used[b := false];
            forall c :: 0 <= c < g.size ==> used'[c] == (fs.used[c] && !(c > 0 && exists k :: Slot(fs, i, k) == c))
  {
    var b := Slot(fs, i, INDIRECT);
    assert SlotOk(g, fs, i, INDIRECT);
    forall k | b != 0 && k != INDIRECT ensures Slot(fs, i, k) != b {
      assert SlotsApart(fs, i, k, i, INDIRECT);
    }
    forall c | c > 0 ensures (exists k :: Slot(fs, i, k) == c) <==> NamedBelow(fs, i, SLOTS, c) || c == b {
      if k :| Slot(fs, i, k) == c {
        assert 0 <= k < SLOTS;
      }
      if NamedBelow(fs, i, SLOTS, c) {
        var k :| 0 <= k < SLOTS && k != INDIRECT && Slot(fs, i, k) == c;
        assert Slot(fs, i, k) == c;
      }
    }
  }

  /** Only the bitmap, the log and the addresses of inode `i` differ. */
  predicate WithAddrs(fs0: Fs, fs: Fs, i: int) {
    && i in fs0.inodes && i in fs.inodes && |fs.inodes[i].addrs| == NDIRECT + 1
    && fs == fs0.(used := fs.used, logged := fs.logged,
                  inodes := fs0.inodes[i := fs0.inodes[i].(addrs := fs.inodes[i].addrs)])
  }
}
