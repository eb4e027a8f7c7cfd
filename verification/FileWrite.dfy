/** The chunk loop of `filewrite`, and why a chunk fits into one log transaction. */
module FileWrite {
  import opened FsLayout
  import opened FsExtend
  import opened FsBytes
  import opened FsCode

  const MAXOPBLOCKS := 10
  const CHUNK := (MAXOPBLOCKS - 1 - 1 - 2) / 2 * BSIZE

  // --- counting --------------------------------------------------------------------------------------

  lemma {:induction false} MissingBound(fs: Fs, i: int, lo: int, hi: int)
    requires lo <= hi
    ensures Missing(fs, i, lo, hi) <= hi - lo
    ensures lo < hi && Mapped(fs, i, lo) ==> Missing(fs, i, lo, hi) <= hi - lo - 1
    decreases hi - lo
  {
    if lo < hi {
      MissingBound(fs, i, lo, hi - 1);
    }
  }

  /** The blocks `lo` to `hi` of a file. */
  function DataBlocks(fs: Fs, i: int, lo: int, hi: int): set<int>
    decreases hi - lo
  {
    if hi <= lo then {} else DataBlocks(fs, i, lo, hi - 1) + {Slot(fs, i, DataSlot(hi - 1))}
  }

  lemma {:induction false} DataBlocksSize(fs: Fs, i: int, lo: int, hi: int)
    requires lo <= hi
    ensures |DataBlocks(fs, i, lo, hi)| <= hi - lo
    ensures forall x :: DataBlock(fs, i, lo, hi, x) ==> x in DataBlocks(fs, i, lo, hi)
    decreases hi - lo
  {
    if lo < hi {
      DataBlocksSize(fs, i, lo, hi - 1);
      forall x | DataBlock(fs, i, lo, hi, x) ensures x in DataBlocks(fs, i, lo, hi) {
        var bn :| lo <= bn < hi && IsBlockOf(fs, i, bn, x);
        if bn < hi - 1 {
          assert DataBlock(fs, i, lo, hi - 1, x);
        }
      }
    }
  }

  lemma {:induction false} BitmapsSize(g: Geometry, allocs: seq<int>)
    ensures |Bitmaps(g, allocs)| <= |allocs|
  {
    if allocs != [] {
      var n := |allocs| - 1;
      BitmapsSize(g, allocs[..n]);
      assert allocs == allocs[..n] + [allocs[n]];
      assert Bitmaps(g, allocs) == Bitmaps(g, allocs[..n]) + {BitmapBlock(g, allocs[n])};
    }
  }

  lemma SubsetSize(a: set<int>, b: set<int>)
    requires a <= b
    ensures |a| <= |b|
  {
    assert b == a + (b - a);
  }

  /** A chunk touches at most four blocks, and four only when the first one is not aligned. */
  lemma ChunkTouches(off: nat, n: nat)
    requires n <= CHUNK
    ensures Touched(off, n) <= 4 && (off % BSIZE == 0 ==> Touched(off, n) <= 3)
  {
  }

  /** A chunk allocates at most four blocks: an unaligned first block lies below the file's size,
      so it is there already, and one more block may be needed for the addresses. */
  lemma ChunkAllocs(g: Geometry, fs0: Fs, fs1: Fs, i: int, off: nat, n: nat, data: seq<int>, hi: int, allocs: seq<int>)
    requires FilesOk(g, fs0) && i in fs0.inodes && off <= fs0.inodes[i].size && n <= CHUNK
    requires Wrote(g, fs0, fs1, i, off, data, off / BSIZE, hi, allocs)
             && off / BSIZE <= hi <= off / BSIZE + Touched(off, n)
    ensures |allocs| <= 4 && hi - off / BSIZE <= 4
  {
    ChunkTouches(off, n);
    MissingBound(fs0, i, off / BSIZE, hi);
    assert FileOk(fs0, i);
    if off % BSIZE != 0 {
      assert off / BSIZE * BSIZE < fs0.inodes[i].size;
      assert Mapped(fs0, i, off / BSIZE);
    }
  }

  /** One chunk logs at most MAXOPBLOCKS distinct blocks: four of data, four of the bitmap, the
      indirect block and the inode's block. */
  lemma ChunkBudget(g: Geometry, fs0: Fs, fs1: Fs, fs: Fs, i: int, off: nat, n: nat, data: seq<int>, hi: int,
                    allocs: seq<int>)
    requires FilesOk(g, fs0) && i in fs0.inodes && off <= fs0.inodes[i].size && n <= CHUNK && fs0.logged == {}
    requires WriteLog(g, fs0, fs1, fs, i, off, n, data, hi, allocs)
    ensures |fs.logged| <= MAXOPBLOCKS
  {
    ChunkAllocs(g, fs0, fs1, i, off, n, data, hi, allocs);
    var lo := off / BSIZE;
    DataBlocksSize(fs1, i, lo, hi);
    BitmapsSize(g, allocs);
    var bound := Bitmaps(g, allocs) + DataBlocks(fs1, i, lo, hi) + {Slot(fs1, i, INDIRECT), InodeBlock(g, i)};
    forall x | x in fs.logged ensures x in bound {
      assert Logged(g, fs0, fs1, i, lo, hi, allocs, x);
    }
    SubsetSize(fs.logged, bound);
  }

  // --- the loop ------------------------------------------------------------------------------------------

  /** Writing twice in a row is writing once. */
  lemma SplicedTwice(was: seq<int>, off: nat, a: seq<int>, b: seq<int>)
    requires off <= |was|
    ensures off + |a| <= |Spliced(was, off, a)|
    ensures Spliced(Spliced(was, off, a), off + |a|, b) == Spliced(was, off, a + b)
  {
  }

  /** What a file holds after `data` has been written to it at `off`. */
  function Written(was: seq<int>, off: nat, data: seq<int>): seq<int> {
    if data == [] || off > |was| then was else Spliced(was, off, data)
  }

  lemma WrittenTwice(was: seq<int>, off: nat, a: seq<int>, b: seq<int>)
    requires off <= |was| || (a == [] && b == [])
    ensures Written(Written(was, off, a), off + |a|, b) == Written(was, off, a + b)
  {
    if a == [] {
      assert a + b == b;
    } else if b == [] {
      assert a + b == a;
    } else {
      SplicedTwice(was, off, a, b);
    }
  }

  lemma OthersStillSame(fs0: Fs, fs1: Fs, fs2: Fs, i: int)
    requires OthersSame(fs0, fs1, i) && OthersSame(fs1, fs2, i)
    ensures OthersSame(fs0, fs2, i)
  {
    forall j | j in fs0.inodes && j != i ensures SameFile(fs0, fs2, j) {
      assert SameFile(fs0, fs1, j) && SameFile(fs1, fs2, j);
    }
  }

  lemma HoldsStill(g: Geometry, fs: Fs, i: int)
    requires FilesOk(g, fs) && i in fs.inodes
    ensures NowHolds(g, fs, fs, i, Contents(fs, i))
  {
    forall j | j in fs.inodes ensures SameFile(fs, fs, j) {
      assert FileOk(fs, j);
    }
  }

  lemma HoldsNext(g: Geometry, fs0: Fs, fs1: Fs, fs2: Fs, i: int, mid: seq<int>, now: seq<int>)
    requires NowHolds(g, fs0, fs1, i, mid) && NowHolds(g, fs1, fs2, i, now)
    ensures NowHolds(g, fs0, fs2, i, now)
  {
    OthersStillSame(fs0, fs1, fs2, i);
  }

  /** A transaction starts with an empty list of logged blocks. */
  function Begun(fs: Fs): Fs {
    fs.(logged := {})
  }

  lemma BegunOwn(g: Geometry, fs: Fs)
    requires Own(g, fs)
    ensures Own(g, Begun(fs))
  {
    var fs' := Begun(fs);
    forall j, l ensures Slot(fs', j, l) == Slot(fs, j, l) && SlotOk(g, fs', j, l) {
      assert SlotOk(g, fs, j, l);
    }
    forall j, l, p, q ensures SlotsApart(fs', j, l, p, q) {
      assert SlotsApart(fs, j, l, p, q);
    }
    forall b ensures UsedOk(g, fs', b) {
      assert UsedOk(g, fs, b);
      if 0 <= b < g.size && fs.used[b] && b >= g.nmeta {
        var j, l :| Slot(fs, j, l) == b;
        assert Slot(fs', j, l) == b;
      }
    }
  }

  lemma BegunFile(fs: Fs, j: int)
    requires FileOk(fs, j)
    ensures FileOk(Begun(fs), j) && (j in fs.inodes ==> SameFile(fs, Begun(fs), j))
  {
    var fs' := Begun(fs);
    forall l ensures Slot(fs', j, l) == Slot(fs, j, l) {
    }
    forall bn ensures Mapped(fs', j, bn) == Mapped(fs, j, bn) {
    }
    if j in fs.inodes {
      forall p: nat ensures FileByte(fs', j, p) == FileByte(fs, j, p) {
      }
      assert Contents(fs', j) == Contents(fs, j);
    }
  }

  lemma BegunHolds(g: Geometry, fs: Fs, i: int)
    requires FilesOk(g, fs) && i in fs.inodes
    ensures NowHolds(g, fs, Begun(fs), i, Contents(fs, i))
  {
    BegunOwn(g, fs);
    forall j ensures FileOk(Begun(fs), j) && (j in fs.inodes ==> SameFile(fs, Begun(fs), j)) {
      assert FileOk(fs, j);
      BegunFile(fs, j);
    }
  }

  predicate Full(fs: Fs) {
    forall b :: 0 <= b < |fs.used| ==> fs.used[b]
  }

  /** One transaction of `filewrite`. */
  method WriteChunk(f: FileSystem, i: int, off: nat, chunk: seq<int>, failAt: int) returns (r: int)
    requires FilesOk(f.g, f.fs) && i in f.fs.inodes && off < UINT && |chunk| <= CHUNK
    modifies f
    ensures -1 <= r <= |chunk| && |f.fs.logged| <= MAXOPBLOCKS
    ensures NowHolds(f.g, old(f.fs), f.fs, i, Written(Contents(old(f.fs), i), off, if r == -1 then [] else chunk[..r]))
    ensures r == -1 <==> off > |Contents(old(f.fs), i)| || off + |chunk| > MAXFILE * BSIZE
    ensures 0 <= r < |chunk| ==> failAt >= 0 || Full(f.fs)
  {
    assert FileOk(f.fs, i);
    BegunHolds(f.g, f.fs, i);
    f.fs := f.fs.(logged := {});
    ghost var fs1 := f.fs;
    ghost var hi, allocs, mid;
    r, hi, allocs, mid := f.WriteI(i, off, chunk, failAt);
    if r != -1 {
      ChunkBudget(f.g, fs1, mid, f.fs, i, off, |chunk|, chunk[..r], hi, allocs);
      WroteHolds(f.g, old(f.fs), fs1, f.fs, i, off, chunk[..r]);
    }
  }

  lemma WroteHolds(g: Geometry, fs0: Fs, fs1: Fs, fs: Fs, i: int, off: nat, data: seq<int>)
    requires i in fs0.inodes && NowHolds(g, fs0, fs1, i, Contents(fs0, i)) && off <= |Contents(fs1, i)|
    requires NowHolds(g, fs1, fs, i, Spliced(Contents(fs1, i), off, data))
    ensures NowHolds(g, fs0, fs, i, Written(Contents(fs0, i), off, data))
  {
    if data == [] {
      SplicedNothing(Contents(fs0, i), off);
    }
    OthersStillSame(fs0, fs1, fs, i);
  }

  lemma SplicedNothing(was: seq<int>, off: nat)
    requires off <= |was|
    ensures Spliced(was, off, []) == was
  {
  }

  lemma Longer(src: seq<int>, k: nat, n1: nat, r: nat)
    requires k + n1 <= |src| && r <= n1
    ensures src[..k] + src[k..k + n1][..r] == src[..k + r]
  {
  }

  /** The bytes that one more chunk adds. */
  lemma ChunkAdds(was: seq<int>, off: nat, src: seq<int>, k: nat, n1: nat, r: int)
    requires k + n1 <= |src| && -1 <= r <= n1 && (k > 0 || r > 0 ==> off <= |was|)
    ensures Written(Written(was, off, src[..k]), off + k, if r == -1 then [] else src[k..k + n1][..r])
         == Written(was, off, src[..k + if r > 0 then r else 0])
  {
    var more := if r == -1 then [] else src[k..k + n1][..r];
    Longer(src, k, n1, |more|);
    WrittenTwice(was, off, src[..k], more);
  }

  /** A position past the end now was past the end before. */
  lemma PastEnd(was: seq<int>, off: nat, data: seq<int>)
    requires off + |data| > |Written(was, off, data)|
    ensures off > |was|
  {
  }

  /** One round of `filewrite`, at byte `k` of `src`. */
  method WriteNext(f: FileSystem, i: int, off: nat, src: seq<int>, k: nat, n1: nat, failAt: int, ghost fs0: Fs,
                   ghost was: seq<int>)
    returns (r: int, ghost done: nat)
    requires k + n1 <= |src| && n1 <= CHUNK && off + k < UINT && (k > 0 ==> off <= |was|)
    requires NowHolds(f.g, fs0, f.fs, i, Written(was, off, src[..k]))
    modifies f
    ensures done == k + (if r > 0 then r else 0) && -1 <= r <= n1 && (done > 0 ==> off <= |was|)
    ensures NowHolds(f.g, fs0, f.fs, i, Written(was, off, src[..done]))
    ensures r == n1 ==> off + done <= MAXFILE * BSIZE
    ensures r < n1 ==> off > |was| || off + |src| > MAXFILE * BSIZE || failAt >= 0 || Full(f.fs)
  {
    ghost var fs1, now := f.fs, Written(was, off, src[..k]);
    if off + k > |now| {
      PastEnd(was, off, src[..k]);
    }
    r := WriteChunk(f, i, off + k, src[k..k + n1], failAt);
    done := k + if r > 0 then r else 0;
    ChunkAdds(was, off, src, k, n1, r);
    HoldsNext(f.g, fs0, fs1, f.fs, i, now, Written(was, off, src[..done]));
  }

  /** `filewrite` on a file: chunk after chunk, each in a transaction of its own.  `fails[c]` is the
      copy that fails in chunk `c`.  `done` bytes are written, all of them or the call fails. */
  method WriteFile(f: FileSystem, i: int, off: nat, src: seq<int>, fails: seq<int>)
    returns (ret: int, off': nat, ghost done: nat)
    requires FilesOk(f.g, f.fs) && i in f.fs.inodes && off < UINT
    modifies f
    ensures done <= |src| && off' == off + done && ret == if done == |src| then |src| else -1
    ensures NowHolds(f.g, old(f.fs), f.fs, i, Written(Contents(old(f.fs), i), off, src[..done]))
    ensures done > 0 ==> off <= |Contents(old(f.fs), i)|
    ensures done < |src| ==>
              || off > |Contents(old(f.fs), i)| || off + |src| > MAXFILE * BSIZE
              || (exists c :: 0 <= c < |fails| && fails[c] >= 0) || Full(f.fs)
  {
    off', done := off, 0;
    ghost var was := Contents(f.fs, i);
    HoldsStill(f.g, f.fs, i);
    var k, c := 0, 0;
    while k < |src|
      invariant 0 <= k <= |src| && done == k && 0 <= c && off' == off + k < UINT && (k > 0 ==> off <= |was|)
      invariant NowHolds(f.g, old(f.fs), f.fs, i, Written(was, off, src[..k]))
      decreases |src| - k
    {
      var n1 := Min(|src| - k, CHUNK);
      var r;
      r, done := WriteNext(f, i, off, src, k, n1, if c < |fails| then fails[c] else -1, old(f.fs), was);
      if r > 0 {
        off' := off' + r;
      }
      if r != n1 {
        return -1, off', done;
      }
      k := k + r;
      c := c + 1;
    }
    return |src|, off', done;
  }
}
