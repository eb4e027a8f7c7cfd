/** `balloc`, `bfree`, `bmap`, `itrunc`, `readi` and `writei`. */
module FsCode {
  import opened FsLayout
  import opened FsExtend
  import opened FsBytes

  const UINT := 0x1_0000_0000

  function Min(a: int, b: int): int {
    if a < b then a else b
  }

  /** A chunk that is read from one block continues what was read before. */
  lemma ReadMore(g: Geometry, fs: Fs, i: int, off: nat, tot: nat, m: nat, addr: int)
    requires Own(g, fs) && addr == Slot(fs, i, DataSlot((off + tot) / BSIZE)) && addr != 0
             && (off + tot) % BSIZE + m <= BSIZE
    ensures 0 < addr < |fs.blocks| && |fs.blocks[addr]| == BSIZE
    ensures Bytes(fs, i, off + tot)[off..] + fs.blocks[addr][(off + tot) % BSIZE..(off + tot) % BSIZE + m]
            == Bytes(fs, i, off + tot + m)[off..]
  {
    assert SlotOk(g, fs, i, DataSlot((off + tot) / BSIZE));
    var at := (off + tot) % BSIZE;
    forall p: nat | off + tot <= p < off + tot + m ensures FileByte(fs, i, p) == fs.blocks[addr][at + (p - off - tot)] {
      assert p / BSIZE == (off + tot) / BSIZE && p % BSIZE == at + (p - off - tot);
    }
  }

  /** How many blocks the `n` bytes from `off` touch. */
  function Touched(off: nat, n: nat): nat {
    if n == 0 then 0 else (off + n - 1) / BSIZE - off / BSIZE + 1
  }

  /** A loop over the blocks `lo` to `last` of the `n` bytes from `off` has done `tot` bytes and is
      at block `bn`; copy number `failAt`, which is to fail, has not come up. */
  predicate AtBlock(lo: int, last: int, off: nat, n: nat, tot: nat, bn: int, failAt: int) {
    && lo <= bn && !(0 <= failAt < bn - lo)
    && (if tot < n then bn * BSIZE <= off + tot < (bn + 1) * BSIZE && bn < last else bn == last)
  }

  /** Copy number `failAt` is the one for the block that holds byte `off + tot`. */
  predicate Fails(off: nat, tot: nat, failAt: int) {
    0 <= failAt && (off + tot) / BSIZE == off / BSIZE + failAt
  }

  lemma FirstBlock(off: nat, n: nat, failAt: int)
    ensures AtBlock(off / BSIZE, off / BSIZE + Touched(off, n), off, n, 0, off / BSIZE, failAt)
  {
  }

  /** The next block, the place in it, how many bytes of it, and whether the copy fails. */
  method NextBlock(off: nat, n: nat, tot: nat, failAt: int, ghost lo: int, ghost last: int, ghost bn: int)
    returns (b: int, at: nat, m: nat, fails: bool)
    requires tot < n && AtBlock(lo, last, off, n, tot, bn, failAt) && lo == off / BSIZE && last == lo + Touched(off, n)
    ensures b == bn && off + tot == b * BSIZE + at && 0 < m && at + m <= BSIZE && tot + m <= n
    ensures fails == Fails(off, tot, failAt) && (fails ==> 0 <= failAt < last - lo)
    ensures !fails ==> AtBlock(lo, last, off, n, tot + m, bn + 1, failAt)
  {
    b, at := (off + tot) / BSIZE, (off + tot) % BSIZE;
    m := Min(n - tot, BSIZE - at);
    fails := Fails(off, tot, failAt);
  }

  lemma SameHoles(g: Geometry, fs: Fs, i: int, bn: int, at: nat, chunk: seq<int>, n: int)
    requires Own(g, fs) && Mapped(fs, i, bn) && at + |chunk| <= BSIZE && NoHoles(fs, i, n)
    ensures SlotOk(g, fs, i, DataSlot(bn)) && NoHoles(Put(fs, Slot(fs, i, DataSlot(bn)), at, chunk), i, n)
  {
    assert SlotOk(g, fs, i, DataSlot(bn));
    var fs' := Put(fs, Slot(fs, i, DataSlot(bn)), at, chunk);
    forall m | 0 <= m && m * BSIZE < n ensures Mapped(fs', i, m) {
      PutSlot(g, fs, i, bn, at, chunk, i, DataSlot(m));
      assert Mapped(fs, i, m);
    }
  }

  /** The two states hold the same file. */
  predicate SameFile(fs0: Fs, fs: Fs, j: int) {
    && j in fs0.inodes && j in fs.inodes && 0 <= fs0.inodes[j].size && fs.inodes[j].size == fs0.inodes[j].size
    && Contents(fs, j) == Contents(fs0, j)
  }

  lemma NextPart(src: seq<int>, tot: nat, m: nat)
    requires tot + m <= |src|
    ensures src[..tot] + src[tot..tot + m] == src[..tot + m]
  {
  }

  /** What a write has logged: the inode's block, and what the loop logged. */
  ghost predicate WriteLog(g: Geometry, fs0: Fs, fs1: Fs, fs: Fs, i: int, off: nat, n: nat, data: seq<int>, hi: int,
                           allocs: seq<int>) {
    && i in fs1.inodes && fs == Closed(g, fs1, i, off + |data|)
         && Wrote(g, fs0, fs1, i, off, data, off / BSIZE, hi, allocs)
    && off / BSIZE <= hi <= off / BSIZE + Touched(off, n)
  }

  /** File `i` holds `now`, every other file what it held, and all is well. */
  ghost predicate NowHolds(g: Geometry, fs0: Fs, fs: Fs, i: int, now: seq<int>) {
    && FilesOk(g, fs) && fs.inodes.Keys == fs0.inodes.Keys && i in fs.inodes && Contents(fs, i) == now
    && OthersSame(fs0, fs, i)
  }

  ghost predicate OthersSame(fs0: Fs, fs: Fs, i: int) {
    forall j :: j in fs0.inodes && j != i ==> SameFile(fs0, fs, j)
  }

  /** After the end of a write, file `i` has the bytes in it and no other file has changed. */
  lemma ClosedAll(g: Geometry, fs0: Fs, fs1: Fs, i: int, off: nat, data: seq<int>, hi: int, allocs: seq<int>)
    requires FilesOk(g, fs0) && i in fs0.inodes && off <= fs0.inodes[i].size
    requires Wrote(g, fs0, fs1, i, off, data, off / BSIZE, hi, allocs)
    requires NoHoles(fs1, i, off + |data|) && off + |data| <= MAXFILE * BSIZE
    ensures i in fs1.inodes && off <= |Contents(fs0, i)|
    ensures NowHolds(g, fs0, Closed(g, fs1, i, off + |data|), i, Spliced(Contents(fs0, i), off, data))
  {
    assert FileOk(fs0, i);
    ClosedFiles(g, fs0, fs1, i, off, data, off / BSIZE, hi, allocs);
    ClosedContents(g, fs0, fs1, i, off, data, off / BSIZE, hi, allocs, i);
    forall j | j in fs0.inodes && j != i ensures SameFile(fs0, Closed(g, fs1, i, off + |data|), j) {
      assert FileOk(fs0, j);
      ClosedContents(g, fs0, fs1, i, off, data, off / BSIZE, hi, allocs, j);
    }
  }

  /** The bitmap without the blocks of inode `i`. */
  ghost predicate Unused(g: Geometry, fs: Fs, i: int, used: seq<bool>) {
    && |used| == g.size && |fs.used| == g.size
    && forall b :: 0 <= b < g.size ==> used[b] == (fs.used[b] && !(b > 0 && exists k :: Slot(fs, i, k) == b))
  }

  lemma EmptiedAll(g: Geometry, fs: Fs, i: int, used: seq<bool>, logged: set<int>)
    requires FilesOk(g, fs) && i in fs.inodes && Unused(g, fs, i, used)
    ensures NowHolds(g, fs, Emptied(fs, i, used, logged), i, [])
  {
    EmptiedOwn(g, fs, i, used, logged);
    EmptiedFiles(g, fs, i, used, logged, i);
    forall j | j in fs.inodes && j != i ensures SameFile(fs, Emptied(fs, i, used, logged), j) {
      assert FileOk(fs, j);
      EmptiedFiles(g, fs, i, used, logged, j);
    }
  }

  /** The tests at the head of `writei`, the first of them on 32-bit numbers. */
  method Refused(off: nat, n: nat, size: int) returns (b: bool)
    requires off < UINT && n < UINT && size <= MAXFILE * BSIZE
    ensures b <==> off > size || off + n > MAXFILE * BSIZE
  {
    if off > size || (off + n) % UINT < off {
      return true;
    }
    return off + n > MAXFILE * BSIZE;
  }

  class FileSystem {
    const g: Geometry
    var fs: Fs

    /** Find the first free block, mark it and zero it; 0 when the disk is full. */
    method BAlloc() returns (r: int)
      requires Own(g, fs)
      modifies this
      ensures r == 0 ==> fs == old(fs) && forall b :: 0 <= b < g.size ==> fs.used[b]
      ensures r != 0 ==>
                IsFree(g, old(fs), r) && fs == Alloced(g, old(fs), r) && forall b :: 0 <= b < r ==> old(fs).used[b]
    {
      var b := 0;
      while b < g.size
        invariant 0 <= b && fs == old(fs) && forall c :: 0 <= c < b && c < g.size ==> fs.used[c]
        decreases g.size - b
      {
        var bi := 0;
        while bi < BPB && b + bi < g.size
          invariant 0 <= bi <= BPB && fs == old(fs) && forall c :: 0 <= c < b + bi && c < g.size ==> fs.used[c]
        {
          if !fs.used[b + bi] {
            assert UsedOk(g, fs, b + bi);
            fs := fs.(used := fs.used[b + bi := true]);
            fs := fs.(logged := fs.logged + {BitmapBlock(g, b + bi)});
            fs := fs.(blocks := fs.blocks[b + bi := ZeroBlock()]);
            fs := fs.(logged := fs.logged + {b + bi});
            assert fs.logged == old(fs).logged + {BitmapBlock(g, b + bi), b + bi};
            return b + bi;
          }
          bi := bi + 1;
        }
        b := b + BPB;
      }
      return 0;
    }

    /** Mark a block free.  Returns false where the code panics. */
    method BFree(b: int) returns (ok: bool)
      requires 0 <= b < |fs.used|
      modifies this
      ensures ok == old(fs).used[b]
      ensures fs == if ok then old(fs).(used := old(fs).used[b := false],
                                        logged := old(fs).logged + {BitmapBlock(g, b)}) else old(fs)
    {
      if !fs.used[b] {
        return false;
      }
      fs := fs.(used := fs.used[b := false]);
      fs := fs.(logged := fs.logged + {BitmapBlock(g, b)});
      return true;
    }

    /** Allocate a block for slot `k` of inode `i`; 0 when the disk is full. */
    method FillEmpty(i: int, k: int, ghost bn: int) returns (addr: int)
      requires Own(g, fs) && i in fs.inodes && 0 <= k < SLOTS && Slot(fs, i, k) == 0
               && (k == INDIRECT || k == DataSlot(bn))
      requires k > INDIRECT ==> Slot(fs, i, INDIRECT) != 0
      modifies this
      ensures addr == 0 ==> fs == old(fs) && forall b :: 0 <= b < |fs.used| ==> fs.used[b]
      ensures addr != 0 ==> Fillable(g, old(fs), addr, i, k) && fs == Filled(g, old(fs), addr, i, k)
    {
      assert SlotOk(g, fs, i, INDIRECT);
      addr := BAlloc();
      if addr != 0 {
        AllocSlot(g, old(fs), addr, i, INDIRECT);
        fs := SetSlot(fs, i, k, addr);
      }
    }

    /** The disk block of block `bn` of the file, allocating it if there is none; 0 when the disk
        is full. */
    method BMap(i: int, bn: int) returns (addr: int, ghost allocs: seq<int>)
      requires Own(g, fs) && i in fs.inodes && 0 <= bn < MAXFILE
      modifies this
      ensures BMapped(g, old(fs), fs, i, bn, addr, allocs)
    {
      allocs := [];
      if bn < NDIRECT {
        addr := fs.inodes[i].addrs[bn];
        if addr != 0 {
          AlreadyMapped(g, fs, i, bn);
          return;
        }
        addr := FillEmpty(i, bn, bn);
        if addr == 0 {
          DiskFull(g, fs, i, bn);
          return;
        }
        DataMapped(g, old(fs), addr, i, bn);
        return addr, [addr];
      }
      var ind := fs.inodes[i].addrs[NDIRECT];
      if ind != 0 {
        addr, allocs := MapEntry(i, bn, ind);
        return;
      }
      ind := FillEmpty(i, INDIRECT, bn);
      if ind == 0 {
        DiskFull(g, fs, i, bn);
        return 0, [];
      }
      FilledOwn(g, old(fs), ind, i, INDIRECT);
      FillSlot(g, old(fs), ind, i, INDIRECT, i, INDIRECT);
      addr, allocs := MapEntry(i, bn, ind);
      IndirectMapped(g, old(fs), ind, fs, i, bn, addr, allocs);
      return addr, [ind] + allocs;
    }

    /** The part of `bmap` that uses the indirect block. */
    method MapEntry(i: int, bn: int, ind: int) returns (addr: int, ghost allocs: seq<int>)
      requires Own(g, fs) && i in fs.inodes && NDIRECT <= bn < MAXFILE && ind != 0 && ind == Slot(fs, i, INDIRECT)
      modifies this
      ensures BMapped(g, old(fs), fs, i, bn, addr, allocs)
    {
      assert SlotOk(g, fs, i, INDIRECT);
      allocs := [];
      addr := Entry(fs.blocks[ind], bn - NDIRECT);
      if addr != 0 {
        AlreadyMapped(g, fs, i, bn);
        return;
      }
      addr := FillEmpty(i, DataSlot(bn), bn);
      if addr == 0 {
        DiskFull(g, fs, i, bn);
        return;
      }
      DataMapped(g, old(fs), addr, i, bn);
      return addr, [addr];
    }

    /** The part of `itrunc` that frees the direct blocks. */
    method FreeDirect(i: int) returns (ok: bool)
      requires Own(g, fs) && i in fs.inodes
      modifies this
      ensures ok && FreedBelow(g, old(fs), i, INDIRECT, fs.used) && WithAddrs(old(fs), fs, i)
      ensures forall l :: 0 <= l <= NDIRECT ==>
                fs.inodes[i].addrs[l] == if l < NDIRECT then 0 else old(fs).inodes[i].addrs[l]
    {
      FreeNothing(g, fs, i);
      var k := 0;
      while k < NDIRECT
        invariant 0 <= k <= NDIRECT && FreedBelow(g, old(fs), i, k, fs.used) && WithAddrs(old(fs), fs, i)
        invariant forall l :: 0 <= l <= NDIRECT ==>
                    fs.inodes[i].addrs[l] == if l < k then 0 else old(fs).inodes[i].addrs[l]
      {
        FreeNext(g, old(fs), i, k, fs.used);
        if fs.inodes[i].addrs[k] != 0 {
          ok := BFree(fs.inodes[i].addrs[k]);
          if !ok {
            return false;
          }
          fs := fs.(inodes := fs.inodes[i := fs.inodes[i].(addrs := fs.inodes[i].addrs[k := 0])]);
        }
        k := k + 1;
      }
      return true;
    }

    /** Empty a file: its blocks are free again, the other files are as they were, and nothing
        panics.  Returns false where the code panics. */
    method ITrunc(i: int) returns (ok: bool)
      requires FilesOk(g, fs) && i in fs.inodes
      modifies this
      ensures ok && NowHolds(g, old(fs), fs, i, []) && Unused(g, old(fs), i, fs.used)
    {
      ok := FreeBlocks(i);
      EmptiedAll(g, old(fs), i, fs.used, fs.logged);
    }

    /** Free every block of the inode. */
    method FreeBlocks(i: int) returns (ok: bool)
      requires Own(g, fs) && i in fs.inodes
      modifies this
      ensures ok && fs == Emptied(old(fs), i, fs.used, fs.logged) && Unused(g, old(fs), i, fs.used)
    {
      ok := FreeDirect(i);
      if !ok {
        return false;
      }
      SkipIndirect(g, old(fs), i, fs.used);
      if fs.inodes[i].addrs[NDIRECT] != 0 {
        ok := FreeIndirect(i, fs.inodes[i].addrs[NDIRECT], old(fs));
        if !ok {
          return false;
        }
      } else {
        NoIndirect(g, old(fs), i, fs.used);
        FreeLast(g, old(fs), i, fs.used);
      }
      fs := fs.(inodes := fs.inodes[i := fs.inodes[i].(size := 0)]);
      fs := fs.(logged := fs.logged + {InodeBlock(g, i)});
      assert fs.inodes[i].addrs == NoAddrs();
      return true;
    }

    /** The part of `itrunc` that frees the indirect block and what it names. */
    method FreeIndirect(i: int, ind: int, ghost fs0: Fs) returns (ok: bool)
      requires Own(g, fs0) && i in fs0.inodes && ind == Slot(fs0, i, INDIRECT) && ind != 0
      requires fs.blocks == fs0.blocks && FreedBelow(g, fs0, i, INDIRECT + 1, fs.used)
      requires i in fs.inodes && |fs.inodes[i].addrs| == NDIRECT + 1
      modifies this
      ensures ok && fs == old(fs).(
                used := fs.used, logged := fs.logged,
                inodes := old(fs).inodes[i := old(fs).inodes[i].(addrs := old(fs).inodes[i].addrs[NDIRECT := 0])])
      ensures |fs.used| == g.size
      ensures forall b :: 0 <= b < g.size ==>
                fs.used[b] == (fs0.used[b] && !(b > 0 && exists k :: Slot(fs0, i, k) == b))
    {
      assert SlotOk(g, fs0, i, INDIRECT);
      var j := 0;
      while j < NINDIRECT
        invariant 0 <= j <= NINDIRECT && FreedBelow(g, fs0, i, 13 + j, fs.used)
        invariant fs == old(fs).(used := fs.used, logged := fs.logged)
      {
        FreeNext(g, fs0, i, 13 + j, fs.used);
        var a := Entry(fs.blocks[ind], j);
        if a != 0 {
          ok := BFree(a);
          if !ok {
            return false;
          }
        }
        j := j + 1;
      }
      FreeLast(g, fs0, i, fs.used);
      ok := BFree(ind);
      fs := fs.(inodes := fs.inodes[i := fs.inodes[i].(addrs := fs.inodes[i].addrs[NDIRECT := 0])]);
    }

    /** One round of `readi`: `m` bytes from place `at` of block `bn`. */
    method ReadChunk(i: int, bn: int, at: nat, m: nat, ghost off: nat, ghost tot: nat) returns (chunk: seq<int>)
      requires Own(g, fs) && i in fs.inodes && 0 <= bn < MAXFILE && Mapped(fs, i, bn)
      requires off + tot == bn * BSIZE + at && at + m <= BSIZE && 0 < m
      modifies this
      ensures fs == old(fs) && |chunk| == m
      ensures Bytes(fs, i, off + tot)[off..] + chunk == Bytes(fs, i, off + tot + m)[off..]
    {
      var addr, allocs := BMap(i, bn);
      ReadMore(g, fs, i, off, tot, m, addr);
      chunk := fs.blocks[addr][at..at + m];
    }

    /** The loop of `readi`. */
    method ReadLoop(i: int, off: nat, want: nat, failAt: int) returns (ok: bool, dst: seq<int>)
      requires FilesOk(g, fs) && i in fs.inodes && off + want <= fs.inodes[i].size
      modifies this
      ensures fs == old(fs) && (ok <==> !(0 <= failAt < Touched(off, want)))
      ensures ok ==> |dst| == want && dst == Bytes(fs, i, off + want)[off..]
    {
      dst := [];
      var tot := 0;
      ghost var lo, last, hi := off / BSIZE, off / BSIZE + Touched(off, want), off / BSIZE;
      FirstBlock(off, want, failAt);
      assert FileOk(fs, i);
      while tot < want
        invariant fs == old(fs) && 0 <= tot <= want && dst == Bytes(fs, i, off + tot)[off..]
        invariant AtBlock(lo, last, off, want, tot, hi, failAt)
        decreases want - tot
      {
        var bn, at, m, fails := NextBlock(off, want, tot, failAt, lo, last, hi);
        assert Mapped(fs, i, bn) && bn < MAXFILE;
        var chunk := ReadChunk(i, bn, at, m, off, tot);
        if fails {
          return false, dst;
        }
        dst := dst + chunk;
        hi := hi + 1;
        tot := tot + m;
      }
      return true, dst;
    }

    /** Read up to `n` bytes from `off`.  Copy number `failAt` to the caller fails. */
    method ReadI(i: int, off: nat, n: nat, failAt: int) returns (tot: int, dst: seq<int>)
      requires FilesOk(g, fs) && i in fs.inodes && off < UINT && n < UINT
      modifies this
      ensures fs == old(fs)
      ensures off > fs.inodes[i].size || off + n >= UINT ==> tot == 0 && dst == []
      ensures off <= fs.inodes[i].size && off + n < UINT ==>
                var want := Min(n, fs.inodes[i].size - off);
                if 0 <= failAt < Touched(off, want) then tot == -1
                else tot == want && dst == Contents(fs, i)[off..off + tot]
    {
      dst := [];
      var size := fs.inodes[i].size;
      if off > size || (off + n) % UINT < off {
        return 0, dst;
      }
      assert FileOk(fs, i) && off + n < UINT;
      var want := if off + n > size then size - off else n;
      var ok;
      ok, dst := ReadLoop(i, off, want, failAt);
      assert Contents(fs, i)[off..off + want] == Bytes(fs, i, off + want)[off..];
      return if ok then want else -1, dst;
    }

    /** One round of `writei`: map block `bn`, copy the chunk into it at `at`, and log it. */
    method WriteChunk(i: int, bn: int, at: nat, chunk: seq<int>, fails: bool,
                      ghost fs0: Fs, ghost off: nat, ghost data: seq<int>, ghost next: seq<int>,
                      ghost lo: int, ghost allocs: seq<int>)
      returns (ok: bool, ghost allocs': seq<int>)
      requires Own(g, fs0) && i in fs0.inodes && 0 <= bn < MAXFILE && lo <= bn && off + |data| == bn * BSIZE + at
               && at + |chunk| <= BSIZE && at < BSIZE
      requires next == data + chunk
      requires Wrote(g, fs0, fs, i, off, data, lo, bn, allocs) && NoHoles(fs, i, off + |data|)
      modifies this
      ensures Wrote(g, fs0, fs, i, off, if ok then next else data, lo, bn + 1, allocs')
      ensures NoHoles(fs, i, off + if ok then |next| else |data|)
      ensures if ok then !fails else fails || forall b :: 0 <= b < |fs.used| ==> fs.used[b]
    {
      var addr, more := BMap(i, bn);
      allocs' := allocs + more;
      WroteMapped(g, fs0, old(fs), fs, i, off, data, lo, bn, allocs, addr, more);
      assert forall m :: Mapped(old(fs), i, m) ==> SameOrNew(old(fs), fs, i, i, DataSlot(m)) && Mapped(fs, i, m);
      if addr == 0 || fails {
        return false, allocs';
      }
      NextHole(old(fs), fs, i, off + |data|, off + |data| + |chunk|);
      WrotePut(g, fs0, fs, i, off, data, lo, bn, allocs', at, chunk);
      ghost var fs1 := fs;
      fs := fs.(blocks := fs.blocks[addr := Over(fs.blocks[addr], at, chunk)]);
      fs := fs.(logged := fs.logged + {addr});
      assert fs == Put(fs1, addr, at, chunk);
      SameHoles(g, fs1, i, bn, at, chunk, off + |data| + |chunk|);
      return true, allocs';
    }

    /** The loop of `writei`: `tot` bytes are written, in blocks `off / BSIZE` to `hi`. */
    method WriteLoop(i: int, off: nat, src: seq<int>, failAt: int, ghost lo: int)
        returns (tot: nat, ghost done: seq<int>, ghost hi: int, ghost allocs: seq<int>)
      requires FilesOk(g, fs) && i in fs.inodes && off <= fs.inodes[i].size && off + |src| <= MAXFILE * BSIZE
      requires lo == off / BSIZE
      modifies this
      ensures tot <= |src| && lo <= hi <= lo + Touched(off, |src|)
      ensures done == src[..tot]
      ensures Wrote(g, old(fs), fs, i, off, done, lo, hi, allocs) && NoHoles(fs, i, off + |done|)
      ensures if tot < |src| then Fails(off, tot, failAt) || forall b :: 0 <= b < |fs.used| ==> fs.used[b]
              else !(0 <= failAt < Touched(off, |src|))
    {
      ghost var last := lo + Touched(off, |src|);
      FirstBlock(off, |src|, failAt);
      tot, done, hi, allocs := 0, [], lo, [];
      assert FileOk(fs, i);
      WroteNothing(g, fs, i, off, lo);
      while tot < |src|
        invariant tot <= |src| && AtBlock(lo, last, off, |src|, tot, hi, failAt)
        invariant Wrote(g, old(fs), fs, i, off, done, lo, hi, allocs) && NoHoles(fs, i, off + |done|)
        invariant done == src[..tot]
        decreases |src| - tot
      {
        var bn, at, m, fails := NextBlock(off, |src|, tot, failAt, lo, last, hi);
        assert bn < MAXFILE;
        NextPart(src, tot, m);
        ghost var next := src[..tot + m];
        var ok, more := WriteChunk(i, bn, at, src[tot..tot + m], fails, old(fs), off, done, next, lo, allocs);
        done, hi, allocs := if ok then next else done, bn + 1, more;
        if !ok {
          break;
        }
        tot := tot + m;
      }
    }

    /** Write `src` at `off`.  Copy number `failAt` from the caller fails.  Returns how many bytes
        were written, or -1 when the range is not allowed. */
    method WriteI(i: int, off: nat, src: seq<int>, failAt: int)
        returns (t: int, ghost hi: int, ghost allocs: seq<int>, ghost fs1: Fs)
      requires FilesOk(g, fs) && i in fs.inodes && off < UINT && |src| < UINT
      modifies this
      ensures t == -1 <==> off > old(fs).inodes[i].size || off + |src| > MAXFILE * BSIZE
      ensures t == -1 ==> fs == old(fs)
      ensures t != -1 ==> 0 <= t <= |src| && off <= |Contents(old(fs), i)|
      ensures t != -1 ==> NowHolds(g, old(fs), fs, i, Spliced(Contents(old(fs), i), off, src[..t]))
      ensures 0 <= t < |src| ==> Fails(off, t, failAt) || forall b :: 0 <= b < |fs.used| ==> fs.used[b]
      ensures t == |src| ==> !(0 <= failAt < Touched(off, |src|))
      ensures t != -1 ==> WriteLog(g, old(fs), fs1, fs, i, off, |src|, src[..t], hi, allocs)
    {
      hi, allocs, fs1 := 0, [], fs;
      assert FileOk(fs, i);
      var refused := Refused(off, |src|, fs.inodes[i].size);
      if refused {
        return -1, hi, allocs, fs1;
      }
      ghost var done;
      t, done, hi, allocs, fs1 := WriteAll(i, off, src, failAt);
    }

    /** `writei` on a range that is allowed. */
    method WriteAll(i: int, off: nat, src: seq<int>, failAt: int)
        returns (t: nat, ghost done: seq<int>, ghost hi: int, ghost allocs: seq<int>, ghost fs1: Fs)
      requires FilesOk(g, fs) && i in fs.inodes && off <= fs.inodes[i].size && off + |src| <= MAXFILE * BSIZE
      modifies this
      ensures t <= |src| && done == src[..t] && off <= |Contents(old(fs), i)|
      ensures NowHolds(g, old(fs), fs, i, Spliced(Contents(old(fs), i), off, done))
      ensures t < |src| ==> Fails(off, t, failAt) || forall b :: 0 <= b < |fs.used| ==> fs.used[b]
      ensures t == |src| ==> !(0 <= failAt < Touched(off, |src|))
      ensures WriteLog(g, old(fs), fs1, fs, i, off, |src|, done, hi, allocs)
    {
      t, done, hi, allocs := WriteLoop(i, off, src, failAt, off / BSIZE);
      fs1 := fs;
      ClosedAll(g, old(fs), fs, i, off, done, hi, allocs);
      EndWrite(i, off + t, old(fs), Spliced(Contents(old(fs), i), off, done), off, done);
    }

    /** The end of `writei`: the new size, and the inode goes to the log. */
    method EndWrite(i: int, end: int, ghost fs0: Fs, ghost now: seq<int>, ghost off: nat, ghost data: seq<int>)
      requires end == off + |data| && i in fs.inodes && NowHolds(g, fs0, Closed(g, fs, i, off + |data|), i, now)
      modifies this
      ensures fs == Closed(g, old(fs), i, off + |data|) && NowHolds(g, fs0, fs, i, now)
    {
      if end > fs.inodes[i].size {
        fs := fs.(inodes := fs.inodes[i := fs.inodes[i].(size := end)]);
      }
      fs := fs.(logged := fs.logged + {InodeBlock(g, i)});
      assert fs.inodes == Closed(g, old(fs), i, end).inodes;
    }

    /** What was written is what a later read of the same range returns. */
    method WriteThenRead(i: int, off: nat, src: seq<int>, failAt: int) returns (t: int, n: int, dst: seq<int>)
      requires FilesOk(g, fs) && i in fs.inodes && off < UINT && |src| < UINT
      modifies this
      ensures FilesOk(g, fs)
      ensures t == -1 <==> off > old(fs).inodes[i].size || off + |src| > MAXFILE * BSIZE
      ensures t == -1 ==> fs == old(fs)
      ensures t != -1 ==> 0 <= t <= |src| && n == t && dst == src[..t]
      ensures failAt < 0 && t != -1 && (exists b :: 0 <= b < |fs.used| && !fs.used[b]) ==> t == |src|
    {
      n, dst := 0, [];
      ghost var hi, allocs, fs1;
      t, hi, allocs, fs1 := WriteI(i, off, src, failAt);
      if t != -1 {
        assert FileOk(fs, i) && FileOk(old(fs), i);
        ghost var was, now := Contents(old(fs), i), Contents(fs, i);
        SplicedHolds(was, off, src[..t]);
        n, dst := ReadI(i, off, t, -1);
        assert now == Contents(fs, i) && now[off..off + t] == src[..t];
      }
    }
  }
}
