/** What the blocks of a file hold, as a sequence of bytes. */
module FsBytes {
  import opened FsLayout
  import opened FsExtend

  /** The byte at position `p` of the file; 0 where no block is mapped. */
  function FileByte(fs: Fs, i: int, p: nat): int {
    var b := Slot(fs, i, DataSlot(p / BSIZE));
    if 0 < b < |fs.blocks| && |fs.blocks[b]| == BSIZE then fs.blocks[b][p % BSIZE] else 0
  }

  function Bytes(fs: Fs, i: int, n: nat): (s: seq<int>)
    ensures |s| == n && forall p :: 0 <= p < n ==> s[p] == FileByte(fs, i, p)
  {
    seq(n, p requires 0 <= p < n => FileByte(fs, i, p))
  }

  predicate Mapped(fs: Fs, i: int, bn: int) {
    Slot(fs, i, DataSlot(bn)) != 0
  }

  /** Every block of the first `n` bytes is mapped. */
  ghost predicate NoHoles(fs: Fs, i: int, n: int) {
    forall bn :: 0 <= bn && bn * BSIZE < n ==> Mapped(fs, i, bn)
  }

  ghost predicate FileOk(fs: Fs, i: int) {
    i in fs.inodes ==> 0 <= fs.inodes[i].size <= MAXFILE * BSIZE && NoHoles(fs, i, fs.inodes[i].size)
  }

  /** Blocks are owned once, and files have no unmapped block below their size. */
  ghost predicate FilesOk(g: Geometry, fs: Fs) {
    Own(g, fs) && forall i :: FileOk(fs, i)
  }

  /** The contents of a file. */
  function Contents(fs: Fs, i: int): seq<int>
    requires i in fs.inodes
  {
    if fs.inodes[i].size < 0 then [] else Bytes(fs, i, fs.inodes[i].size)
  }

  /** `old` with `data` written over it from `off` on. */
  function Spliced(was: seq<int>, off: nat, data: seq<int>): seq<int>
    requires off <= |was|
  {
    was[..off] + data + if off + |data| <= |was| then was[off + |data|..] else []
  }

  // --- no byte changes when blocks are added -----------------------------------------------------------

  lemma ExtendKeepsByte(g: Geometry, fs0: Fs, fs: Fs, i: int, bn: int, addr: int, allocs: seq<int>, j: int, p: nat)
    requires Own(g, fs0) && BMapped(g, fs0, fs, i, bn, addr, allocs)
    ensures FileByte(fs, j, p) == FileByte(fs0, j, p)
  {
    var l := DataSlot(p / BSIZE);
    assert SameOrNew(fs0, fs, i, j, l) && SlotOk(g, fs0, j, l) && SlotsApart(fs0, j, l, i, INDIRECT);
    assert ContentKept(fs0, fs, i, Slot(fs0, j, l));
    assert SlotOk(g, fs, j, l);
    DataSlotInjective(p / BSIZE, bn);
  }

  lemma DataSlotInjective(m: int, n: int)
    ensures DataSlot(m) == DataSlot(n) <==> m == n
    ensures DataSlot(m) != INDIRECT
  {
  }

  // --- writing into a block of the file --------------------------------------------------------------

  function Over(b: Block, at: nat, data: seq<int>): (r: Block)
    requires at + |data| <= |b|
    ensures |r| == |b| && forall q :: 0 <= q < |b| ==> r[q] == if at <= q < at + |data| then data[q - at] else b[q]
  {
    b[..at] + data + b[at + |data|..]
  }

  /** Copy into a buffer and log it. */
  function Put(fs: Fs, b: int, at: nat, data: seq<int>): Fs
    requires 0 <= b < |fs.blocks| && at + |data| <= |fs.blocks[b]|
  {
    fs.(blocks := fs.blocks[b := Over(fs.blocks[b], at, data)], logged := fs.logged + {b})
  }

  /** Writing into a data block changes no slot. */
  lemma PutSlot(g: Geometry, fs: Fs, i: int, bn: int, at: nat, data: seq<int>, j: int, l: int)
    requires Own(g, fs) && Mapped(fs, i, bn) && at + |data| <= BSIZE
    ensures SlotOk(g, fs, i, DataSlot(bn))
    ensures Slot(Put(fs, Slot(fs, i, DataSlot(bn)), at, data), j, l) == Slot(fs, j, l)
  {
    assert SlotOk(g, fs, i, DataSlot(bn));
    DataSlotInjective(bn, bn);
    assert SlotsApart(fs, i, DataSlot(bn), j, INDIRECT);
  }

  lemma PutOwn(g: Geometry, fs: Fs, i: int, bn: int, at: nat, data: seq<int>)
    requires Own(g, fs) && Mapped(fs, i, bn) && at + |data| <= BSIZE
    ensures SlotOk(g, fs, i, DataSlot(bn)) && Own(g, Put(fs, Slot(fs, i, DataSlot(bn)), at, data))
  {
    assert SlotOk(g, fs, i, DataSlot(bn));
    var fs' := Put(fs, Slot(fs, i, DataSlot(bn)), at, data);
    forall j, l ensures SlotOk(g, fs', j, l) {
      PutSlot(g, fs, i, bn, at, data, j, l);
      assert SlotOk(g, fs, j, l);
    }
    forall j, l, p, q ensures SlotsApart(fs', j, l, p, q) {
      PutSlot(g, fs, i, bn, at, data, j, l);
      PutSlot(g, fs, i, bn, at, data, p, q);
      assert SlotsApart(fs, j, l, p, q);
    }
    forall b ensures UsedOk(g, fs', b) {
      assert UsedOk(g, fs, b);
      if 0 <= b < g.size && fs.used[b] && b >= g.nmeta {
        var j, l :| Slot(fs, j, l) == b;
        PutSlot(g, fs, i, bn, at, data, j, l);
        assert Slot(fs', j, l) == b;
      }
    }
  }

  /** Writing into a data block changes those bytes of the file, and no others of any file. */
  lemma PutByte(g: Geometry, fs: Fs, i: int, bn: int, at: nat, data: seq<int>, j: int, p: nat)
    requires Own(g, fs) && 0 <= bn && Mapped(fs, i, bn) && at + |data| <= BSIZE
    ensures SlotOk(g, fs, i, DataSlot(bn))
    ensures FileByte(Put(fs, Slot(fs, i, DataSlot(bn)), at, data), j, p)
         == if j == i && bn * BSIZE + at <= p < bn * BSIZE + at + |data| then data[p - bn * BSIZE - at]
           else FileByte(fs, j, p)
  {
    assert SlotOk(g, fs, i, DataSlot(bn));
    PutSlot(g, fs, i, bn, at, data, j, DataSlot(p / BSIZE));
    assert SlotsApart(fs, i, DataSlot(bn), j, DataSlot(p / BSIZE)) && SlotOk(g, fs, j, DataSlot(p / BSIZE));
    DataSlotInjective(bn, p / BSIZE);
  }

  // --- a write in progress ------------------------------------------------------------------------------

  predicate UsedKept(fs0: Fs, fs: Fs, x: int) {
    0 <= x < |fs0.used| && fs0.used[x] ==> x < |fs.used| && fs.used[x]
  }

  /** `data` has been written at `off` of file `i`, and every other byte of every file is as it was. */
  predicate WroteAt(fs0: Fs, fs: Fs, i: int, off: nat, data: seq<int>, j: int, p: nat) {
    FileByte(fs, j, p) == if j == i && off <= p < off + |data| then data[p - off] else FileByte(fs0, j, p)
  }

  /** How many of the blocks `lo` to `hi` of a file are unmapped. */
  function Missing(fs: Fs, i: int, lo: int, hi: int): nat
    decreases hi - lo
  {
    if hi <= lo then 0 else Missing(fs, i, lo, hi - 1) + if Mapped(fs, i, hi - 1) then 0 else 1
  }

  /** Blocks from `hi` on are mapped as before. */
  predicate SlotKept(fs0: Fs, fs: Fs, i: int, hi: int, bn: int) {
    bn >= hi ==> Slot(fs, i, DataSlot(bn)) == Slot(fs0, i, DataSlot(bn))
  }

  /** The state of `writei`, which has called `bmap` for the blocks `lo` to `hi`. */
  ghost predicate Wrote(g: Geometry, fs0: Fs, fs: Fs, i: int, off: nat, data: seq<int>, lo: int, hi: int,
                        allocs: seq<int>) {
    && Own(g, fs) && fs.inodes.Keys == fs0.inodes.Keys
    && (forall j :: SizeKept(fs0, fs, j))
    && (forall j, l :: SameOrNew(fs0, fs, i, j, l))
    && (forall x :: UsedKept(fs0, fs, x))
    && (forall j, p: nat :: WroteAt(fs0, fs, i, off, data, j, p))
    && (forall x :: Logged(g, fs0, fs, i, lo, hi, allocs, x))
    && (forall bn :: SlotKept(fs0, fs, i, hi, bn))
    && |allocs| <= Missing(fs0, i, lo, hi) + if Slot(fs0, i, INDIRECT) == 0 && Slot(fs, i, INDIRECT) != 0 then 1 else 0
  }

  lemma WroteNothing(g: Geometry, fs: Fs, i: int, off: nat, lo: int)
    requires Own(g, fs)
    ensures Wrote(g, fs, fs, i, off, [], lo, lo, [])
  {
  }

  /** `bmap` has been called for the next block. */
  lemma WroteMapped(g: Geometry, fs0: Fs, fs1: Fs, fs2: Fs, i: int, off: nat, data: seq<int>, lo: int, bn: int,
                    allocs: seq<int>, addr: int, more: seq<int>)
    requires Own(g, fs0) && Wrote(g, fs0, fs1, i, off, data, lo, bn, allocs) && lo <= bn
    requires BMapped(g, fs1, fs2, i, bn, addr, more)
    ensures Wrote(g, fs0, fs2, i, off, data, lo, bn + 1, allocs + more)
  {
    forall j, l ensures SameOrNew(fs0, fs2, i, j, l) {
      assert SameOrNew(fs0, fs1, i, j, l) && SameOrNew(fs1, fs2, i, j, l) && UsedKept(fs0, fs1, Slot(fs2, j, l));
    }
    forall x ensures UsedKept(fs0, fs2, x) {
      assert UsedKept(fs0, fs1, x) && ContentKept(fs1, fs2, i, x);
    }
    forall j, p: nat ensures WroteAt(fs0, fs2, i, off, data, j, p) {
      assert WroteAt(fs0, fs1, i, off, data, j, p);
      ExtendKeepsByte(g, fs1, fs2, i, bn, addr, more, j, p);
    }
    var hi, all := bn + 1, allocs + more;
    forall x ensures Logged(g, fs0, fs2, i, lo, hi, all, x) {
      assert Logged(g, fs0, fs1, i, lo, bn, allocs, x) && Logged(g, fs1, fs2, i, bn, hi, more, x);
      LoggedTrans(g, fs0, fs1, fs2, i, lo, bn, bn, hi, allocs, more, all, x);
    }
    forall m ensures SlotKept(fs0, fs2, i, hi, m) {
      assert SlotKept(fs0, fs1, i, bn, m);
      if m >= hi {
        DataSlotInjective(m, bn);
      }
    }
    forall j ensures SizeKept(fs0, fs2, j) {
      assert SizeKept(fs0, fs1, j) && SizeKept(fs1, fs2, j);
    }
    assert SlotKept(fs0, fs1, i, bn, bn);
    assert SameOrNew(fs1, fs2, i, i, INDIRECT) && SameOrNew(fs0, fs1, i, i, INDIRECT);
    assert Slot(fs1, i, DataSlot(bn)) == Slot(fs0, i, DataSlot(bn));
    assert Missing(fs0, i, lo, hi) == Missing(fs0, i, lo, bn) + if Mapped(fs0, i, bn) then 0 else 1;
  }

  /** The chunk has been copied into the block. */
  lemma WrotePut(g: Geometry, fs0: Fs, fs: Fs, i: int, off: nat, data: seq<int>, lo: int, bn: int, allocs: seq<int>,
                 at: nat, chunk: seq<int>)
    requires Own(g, fs0) && Wrote(g, fs0, fs, i, off, data, lo, bn + 1, allocs) && lo <= bn && 0 <= bn
             && Mapped(fs, i, bn)
    requires at + |chunk| <= BSIZE && off + |data| == bn * BSIZE + at
    ensures SlotOk(g, fs, i, DataSlot(bn))
    ensures Wrote(g, fs0, Put(fs, Slot(fs, i, DataSlot(bn)), at, chunk), i, off, data + chunk, lo, bn + 1, allocs)
  {
    assert SlotOk(g, fs, i, DataSlot(bn));
    var fs', all, hi := Put(fs, Slot(fs, i, DataSlot(bn)), at, chunk), data + chunk, bn + 1;
    PutOwn(g, fs, i, bn, at, chunk);
    forall j, l ensures Slot(fs', j, l) == Slot(fs, j, l) {
      PutSlot(g, fs, i, bn, at, chunk, j, l);
    }
    forall j, l ensures SameOrNew(fs0, fs', i, j, l) {
      assert SameOrNew(fs0, fs, i, j, l);
    }
    forall x ensures UsedKept(fs0, fs', x) && SizeKept(fs0, fs', x) && SlotKept(fs0, fs', i, hi, x) {
      assert UsedKept(fs0, fs, x) && SizeKept(fs0, fs, x) && SlotKept(fs0, fs, i, hi, x);
    }
    forall j, p: nat ensures WroteAt(fs0, fs', i, off, all, j, p) {
      assert WroteAt(fs0, fs, i, off, data, j, p);
      PutByte(g, fs, i, bn, at, chunk, j, p);
    }
    forall x ensures Logged(g, fs0, fs', i, lo, hi, allocs, x) {
      assert Logged(g, fs0, fs, i, lo, hi, allocs, x);
      assert IsBlockOf(fs', i, bn, Slot(fs, i, DataSlot(bn)));
      if m :| lo <= m < hi && IsBlockOf(fs, i, m, x) {
        assert IsBlockOf(fs', i, m, x);
      }
    }
  }

  /** Slots of `fs0` that are mapped stay mapped. */
  lemma StillMapped(g: Geometry, fs0: Fs, fs: Fs, i: int, off: nat, data: seq<int>, lo: int, hi: int,
                    allocs: seq<int>, j: int, n: int)
    requires Wrote(g, fs0, fs, i, off, data, lo, hi, allocs) && NoHoles(fs0, j, n)
    ensures NoHoles(fs, j, n)
  {
    forall bn | 0 <= bn && bn * BSIZE < n ensures Mapped(fs, j, bn) {
      assert Mapped(fs0, j, bn) && SameOrNew(fs0, fs, i, j, DataSlot(bn));
    }
  }

  /** Filling the next block moves the first hole. */
  lemma NextHole(fs: Fs, fs': Fs, i: int, off: nat, n: nat)
    requires NoHoles(fs, i, off) && Mapped(fs', i, off / BSIZE) && off <= n <= (off / BSIZE + 1) * BSIZE
    requires forall bn :: Mapped(fs, i, bn) ==> Mapped(fs', i, bn)
    ensures NoHoles(fs', i, n)
  {
    forall bn | 0 <= bn && bn * BSIZE < n ensures Mapped(fs', i, bn) {
      if bn < off / BSIZE {
        assert Mapped(fs, i, bn);
      }
    }
  }

  /** The end of `writei`: the size is raised if need be, and the inode is logged. */
  function Closed(g: Geometry, fs: Fs, i: int, end: int): Fs
    requires i in fs.inodes
  {
    var size := if end > fs.inodes[i].size then end else fs.inodes[i].size;
    fs.(inodes := fs.inodes[i := fs.inodes[i].(size := size)], logged := fs.logged + {InodeBlock(g, i)})
  }

  lemma ClosedSlot(g: Geometry, fs: Fs, i: int, end: int, j: int, l: int)
    requires i in fs.inodes
    ensures Slot(Closed(g, fs, i, end), j, l) == Slot(fs, j, l)
  {
  }

  lemma ClosedOwn(g: Geometry, fs: Fs, i: int, end: int)
    requires Own(g, fs) && i in fs.inodes
    ensures Own(g, Closed(g, fs, i, end))
  {
    var fs' := Closed(g, fs, i, end);
    forall j, l ensures SlotOk(g, fs', j, l) {
      ClosedSlot(g, fs, i, end, j, l);
      assert SlotOk(g, fs, j, l);
    }
    forall j, l, p, q ensures SlotsApart(fs', j, l, p, q) {
      ClosedSlot(g, fs, i, end, j, l);
      ClosedSlot(g, fs, i, end, p, q);
      assert SlotsApart(fs, j, l, p, q);
    }
    forall b ensures UsedOk(g, fs', b) {
      assert UsedOk(g, fs, b);
      if 0 <= b < g.size && fs.used[b] && b >= g.nmeta {
        var j, l :| Slot(fs, j, l) == b;
        ClosedSlot(g, fs, i, end, j, l);
        assert Slot(fs', j, l) == b;
      }
    }
  }

  /** After a write every file is still whole. */
  lemma ClosedFiles(g: Geometry, fs0: Fs, fs: Fs, i: int, off: nat, data: seq<int>, lo: int, hi: int, allocs: seq<int>)
    requires FilesOk(g, fs0) && Wrote(g, fs0, fs, i, off, data, lo, hi, allocs) && i in fs0.inodes
    requires NoHoles(fs, i, off + |data|) && off + |data| <= MAXFILE * BSIZE
    ensures FilesOk(g, Closed(g, fs, i, off + |data|))
  {
    var fs' := Closed(g, fs, i, off + |data|);
    ClosedOwn(g, fs, i, off + |data|);
    forall j ensures FileOk(fs', j) {
      assert FileOk(fs0, j) && SizeKept(fs0, fs, j);
      if j in fs0.inodes {
        StillMapped(g, fs0, fs, i, off, data, lo, hi, allocs, j, fs0.inodes[j].size);
        forall bn | 0 <= bn && bn * BSIZE < fs'.inodes[j].size ensures Mapped(fs', j, bn) {
          ClosedSlot(g, fs, i, off + |data|, j, DataSlot(bn));
          assert Mapped(fs, j, bn);
        }
      }
    }
  }

  lemma SplicedIs(was: seq<int>, off: nat, data: seq<int>, now: seq<int>)
    requires off <= |was| && |now| == if off + |data| > |was| then off + |data| else |was|
    requires forall p :: 0 <= p < |now| ==> now[p] == if off <= p < off + |data| then data[p - off]
             else if p < |was| then was[p] else 0
    ensures now == Spliced(was, off, data)
  {
  }

  lemma ClosedByte(g: Geometry, fs0: Fs, fs: Fs, i: int, off: nat, data: seq<int>, lo: int, hi: int, allocs: seq<int>,
                   j: int, p: nat)
    requires Wrote(g, fs0, fs, i, off, data, lo, hi, allocs) && i in fs.inodes
    ensures FileByte(Closed(g, fs, i, off + |data|), j, p) == if j == i && off <= p < off + |data| then data[p - off]
            else FileByte(fs0, j, p)
  {
    ClosedSlot(g, fs, i, off + |data|, j, DataSlot(p / BSIZE));
    assert WroteAt(fs0, fs, i, off, data, j, p);
  }

  /** A write splices its data into the file's contents, and leaves other files alone. */
  lemma ClosedContents(g: Geometry, fs0: Fs, fs: Fs, i: int, off: nat, data: seq<int>, lo: int, hi: int,
                       allocs: seq<int>, j: int)
    requires Wrote(g, fs0, fs, i, off, data, lo, hi, allocs) && i in fs0.inodes && j in fs0.inodes
    requires 0 <= fs0.inodes[i].size && 0 <= fs0.inodes[j].size && off <= fs0.inodes[i].size
    ensures var fs' := Closed(g, fs, i, off + |data|);
            && 0 <= fs'.inodes[j].size
            && Contents(fs', j) == if j == i then Spliced(Contents(fs0, i), off, data) else Contents(fs0, j)
  {
    var fs' := Closed(g, fs, i, off + |data|);
    assert SizeKept(fs0, fs, i) && SizeKept(fs0, fs, j);
    var now, was := Contents(fs', j), Contents(fs0, j);
    forall p | 0 <= p < |now|
      ensures now[p] == if j == i && off <= p < off + |data| then data[p - off] else if p < |was| then was[p] else 0
    {
      ClosedByte(g, fs0, fs, i, off, data, lo, hi, allocs, j, p);
    }
    if j == i {
      SplicedIs(was, off, data, now);
    }
  }

  // --- truncation ------------------------------------------------------------------------

  /** Truncating a file keeps every file whole and changes no other file. */
  lemma EmptiedFiles(g: Geometry, fs: Fs, i: int, used: seq<bool>, logged: set<int>, j: int)
    requires FilesOk(g, fs) && i in fs.inodes && Own(g, Emptied(fs, i, used, logged))
    ensures FilesOk(g, Emptied(fs, i, used, logged))
    ensures j in fs.inodes ==> Contents(Emptied(fs, i, used, logged), j) == if j == i then [] else Contents(fs, j)
  {
    var fs' := Emptied(fs, i, used, logged);
    forall m ensures FileOk(fs', m) {
      assert FileOk(fs, m);
      forall bn | 0 <= bn && m in fs.inodes && bn * BSIZE < fs'.inodes[m].size ensures Mapped(fs', m, bn) {
        assert Mapped(fs, m, bn);
        EmptiedSlot(g, fs, i, used, logged, m, DataSlot(bn));
      }
    }
    forall p: nat | j != i ensures FileByte(fs', j, p) == FileByte(fs, j, p) {
      EmptiedSlot(g, fs, i, used, logged, j, DataSlot(p / BSIZE));
    }
  }

  lemma SplicedHolds(was: seq<int>, off: nat, data: seq<int>)
    requires off <= |was|
    ensures off + |data| <= |Spliced(was, off, data)| && Spliced(was, off, data)[off..off + |data|] == data
    ensures |Spliced(was, off, data)| == if off + |data| > |was| then off + |data| else |was|
  {
  }
}
