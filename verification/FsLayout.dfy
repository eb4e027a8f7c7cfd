/** How inodes own disk blocks: the bitmap, direct addresses and the indirect block. */
module FsLayout {
  const BSIZE := 1024
  const NDIRECT := 12
  const NINDIRECT := 256
  const MAXFILE := 268
  const BPB := 8192
  const IPB := 16

  type Block = seq<int>

  datatype Inode = Inode(addrs: seq<int>, size: int)

  /** Where the parts of the disk are: `size` blocks, of which the first `nmeta` hold metadata. */
  datatype Geometry = Geometry(size: int, nmeta: int, bmapstart: int, inodestart: int)

  /** The bitmap, the blocks and the inodes; `logged` collects the blocks given to `log_write`. */
  datatype Fs = Fs(used: seq<bool>, blocks: seq<Block>, inodes: map<int, Inode>, logged: set<int>)

  // --- block numbers inside a block --------------------------------------------------------------

  /** Entry `i` of a block of 32-bit little-endian numbers. */
  function Entry(b: Block, i: int): int
    requires |b| == BSIZE && 0 <= i < NINDIRECT
  {
    b[4 * i] + 0x100 * b[4 * i + 1] + 0x10000 * b[4 * i + 2] + 0x1000000 * b[4 * i + 3]
  }

  function WithEntry(b: Block, i: int, v: nat): (r: Block)
    requires |b| == BSIZE && 0 <= i < NINDIRECT
    ensures |r| == BSIZE
  {
    b[4 * i := v % 0x100][4 * i + 1 := v / 0x100 % 0x100][4 * i + 2 := v / 0x10000 % 0x100][4 * i + 3 := v / 0x1000000]
  }

  /** A number that is written can be read back, and the other numbers stay. */
  lemma EntryRoundTrip(b: Block, i: int, v: nat, j: int)
    requires |b| == BSIZE && 0 <= i < NINDIRECT && 0 <= j < NINDIRECT
    ensures Entry(WithEntry(b, i, v), j) == if i == j then v else Entry(b, j)
  {
    if i == j {
      Digits(v);
    }
  }

  lemma Digits(v: nat)
    ensures v % 0x100 + 0x100 * (v / 0x100 % 0x100) + 0x10000 * (v / 0x10000 % 0x100) + 0x1000000 * (v / 0x1000000) == v
  {
    assert v / 0x10000 == v / 0x100 / 0x100;
    assert v / 0x1000000 == v / 0x10000 / 0x100;
  }

  function ZeroBlock(): (b: Block)
    ensures |b| == BSIZE && forall i :: 0 <= i < BSIZE ==> b[i] == 0
  {
    seq(BSIZE, i => 0)
  }

  // --- slots ---------------------------------------------------------------------------------------

  /** The places of an inode that can name a block: 0 to 11 are the direct addresses, 12 is the
      address of the indirect block, and 13 + j is entry j of the indirect block. */
  const SLOTS := 269
  const INDIRECT := 12

  /** The slot of block `bn` of a file. */
  function DataSlot(bn: int): int {
    if bn < NDIRECT then bn else bn + 1
  }

  predicate Shaped(g: Geometry, fs: Fs) {
    && 0 < g.nmeta <= g.size && |fs.used| == g.size && |fs.blocks| == g.size
    && (forall b :: 0 <= b < g.size ==> |fs.blocks[b]| == BSIZE)
    && (forall i :: i in fs.inodes ==> |fs.inodes[i].addrs| == NDIRECT + 1)
  }

  /** The block that a slot names, or 0. */
  function Slot(fs: Fs, i: int, k: int): int {
    if i !in fs.inodes || |fs.inodes[i].addrs| != NDIRECT + 1 || !(0 <= k < SLOTS) then 0
    else if k <= INDIRECT then fs.inodes[i].addrs[k]
    else
      var ind := fs.inodes[i].addrs[INDIRECT];
      if 0 < ind < |fs.blocks| && |fs.blocks[ind]| == BSIZE then Entry(fs.blocks[ind], k - 13) else 0
  }

  // --- ownership --------------------------------------------------------------------------------------

  predicate SlotOk(g: Geometry, fs: Fs, i: int, k: int) {
    var b := Slot(fs, i, k);
    b == 0 || (0 < g.nmeta <= b < g.size && b < |fs.used| && fs.used[b])
  }

  predicate SlotsApart(fs: Fs, i: int, k: int, j: int, l: int) {
    Slot(fs, i, k) != 0 && Slot(fs, i, k) == Slot(fs, j, l) ==> i == j && k == l
  }

  /** Block `b` is metadata, or some slot names it. */
  ghost predicate Accounted(g: Geometry, fs: Fs, b: int) {
    b < g.nmeta || exists i, k :: Slot(fs, i, k) == b
  }

  ghost predicate UsedOk(g: Geometry, fs: Fs, b: int)
    requires |fs.used| == g.size
  {
    && (0 <= b < g.size && fs.used[b] ==> Accounted(g, fs, b))
    && (0 <= b < g.nmeta && b < g.size ==> fs.used[b])
  }

  /** Set bits are exactly the metadata blocks and the blocks named by slots, each by one slot. */
  ghost predicate Own(g: Geometry, fs: Fs) {
    && Shaped(g, fs)
    && (forall i, k :: SlotOk(g, fs, i, k))
    && (forall i, k, j, l :: SlotsApart(fs, i, k, j, l))
    && (forall b :: UsedOk(g, fs, b))
  }

  // --- allocating a block and putting it into a slot ------------------------------------------------

  function BitmapBlock(g: Geometry, b: int): int {
    b / BPB + g.bmapstart
  }

  function InodeBlock(g: Geometry, i: int): int {
    i / IPB + g.inodestart
  }

  /** The effect of `balloc`: mark the block and zero it. */
  function Alloced(g: Geometry, fs: Fs, b: int): Fs
    requires 0 <= b < |fs.used| && b < |fs.blocks|
  {
    fs.(used := fs.used[b := true], blocks := fs.blocks[b := ZeroBlock()], logged := fs.logged + {BitmapBlock(g, b), b})
  }

  function SetSlot(fs: Fs, i: int, k: int, b: nat): Fs
    requires i in fs.inodes && |fs.inodes[i].addrs| == NDIRECT + 1 && 0 <= k < SLOTS
    requires k > INDIRECT ==> 0 < Slot(fs, i, INDIRECT) < |fs.blocks| && |fs.blocks[Slot(fs, i, INDIRECT)]| == BSIZE
  {
    if k <= INDIRECT then fs.(inodes := fs.inodes[i := fs.inodes[i].(addrs := fs.inodes[i].addrs[k := b])])
    else
      var ind := fs.inodes[i].addrs[INDIRECT];
      fs.(blocks := fs.blocks[ind := WithEntry(fs.blocks[ind], k - 13, b)], logged := fs.logged + {ind})
  }

  predicate IsFree(g: Geometry, fs: Fs, b: int) {
    g.nmeta <= b < g.size && |fs.used| == g.size && 0 <= b && !fs.used[b]
  }

  /** A block that no slot names can be zeroed without changing any slot. */
  lemma AllocSlot(g: Geometry, fs: Fs, b: int, i: int, k: int)
    requires Own(g, fs) && IsFree(g, fs, b)
    ensures Slot(Alloced(g, fs, b), i, k) == Slot(fs, i, k)
  {
    assert SlotOk(g, fs, i, INDIRECT);
  }

  /** Filling an empty slot with a fresh block changes that slot only. */
  lemma FillSlot(g: Geometry, fs: Fs, b: int, i: int, k: int, j: int, l: int)
    requires Own(g, fs) && IsFree(g, fs, b) && i in fs.inodes && 0 <= k < SLOTS && Slot(fs, i, k) == 0
    requires k > INDIRECT ==> Slot(fs, i, INDIRECT) != 0
    ensures SlotOk(g, fs, i, INDIRECT)
    ensures Slot(SetSlot(Alloced(g, fs, b), i, k, b), j, l) == if i == j && k == l then b else Slot(fs, j, l)
  {
    assert SlotOk(g, fs, i, INDIRECT) && SlotOk(g, fs, j, INDIRECT);
    AllocSlot(g, fs, b, i, INDIRECT);
    AllocSlot(g, fs, b, j, l);
    assert SlotsApart(fs, i, INDIRECT, j, INDIRECT);
    var fs1 := Alloced(g, fs, b);
    if k > INDIRECT && INDIRECT < l < SLOTS && i == j {
      EntryRoundTrip(fs1.blocks[fs1.inodes[i].addrs[INDIRECT]], k - 13, b, l - 13);
    }
  }

  /** A fresh block in an empty slot. */
  function Filled(g: Geometry, fs: Fs, b: int, i: int, k: int): Fs
    requires Shaped(g, fs) && 0 <= b < g.size && i in fs.inodes && 0 <= k < SLOTS
    requires k > INDIRECT ==> 0 < Slot(fs, i, INDIRECT) < g.size
  {
    SetSlot(Alloced(g, fs, b), i, k, b)
  }

  predicate Fillable(g: Geometry, fs: Fs, b: int, i: int, k: int) {
    && IsFree(g, fs, b) && i in fs.inodes && 0 <= k < SLOTS && Slot(fs, i, k) == 0
    && (k > INDIRECT ==> 0 < Slot(fs, i, INDIRECT) < g.size)
  }

  lemma FilledUsed(g: Geometry, fs: Fs, b: int, i: int, k: int, c: int)
    requires Own(g, fs) && Fillable(g, fs, b, i, k)
    ensures |Filled(g, fs, b, i, k).used| == g.size && UsedOk(g, Filled(g, fs, b, i, k), c)
  {
    var fs' := Filled(g, fs, b, i, k);
    assert UsedOk(g, fs, c);
    FillSlot(g, fs, b, i, k, i, k);
    if 0 <= c < g.size && fs'.used[c] && c >= g.nmeta {
      if c == b {
        assert Slot(fs', i, k) == c;
      } else {
        var j, l :| Slot(fs, j, l) == c;
        FillSlot(g, fs, b, i, k, j, l);
        assert Slot(fs', j, l) == c;
      }
    }
  }

  /** Filling a slot keeps every block owned once. */
  lemma FilledOwn(g: Geometry, fs: Fs, b: int, i: int, k: int)
    requires Own(g, fs) && Fillable(g, fs, b, i, k)
    ensures Own(g, Filled(g, fs, b, i, k))
  {
    var fs' := Filled(g, fs, b, i, k);
    forall j, l ensures SlotOk(g, fs', j, l) {
      FillSlot(g, fs, b, i, k, j, l);
      assert SlotOk(g, fs, j, l);
    }
    forall j, l, p, q ensures SlotsApart(fs', j, l, p, q) {
      FillSlot(g, fs, b, i, k, j, l);
      FillSlot(g, fs, b, i, k, p, q);
      assert SlotsApart(fs, j, l, p, q) && SlotOk(g, fs, j, l) && SlotOk(g, fs, p, q);
    }
    forall c ensures UsedOk(g, fs', c) {
      FilledUsed(g, fs, b, i, k, c);
    }
  }

  // --- truncating -----------------------------------------------------------------------------------

  /** Some slot of inode `i` in `[0, n)`, other than the indirect slot, names block `b`. */
  ghost predicate NamedBelow(fs: Fs, i: int, n: int, b: int) {
    exists k :: 0 <= k < n && k != INDIRECT && Slot(fs, i, k) == b
  }

  /** The blocks named by the slots before `n` are free, and those of other slots are as they were. */
  ghost predicate FreedBelow(g: Geometry, fs: Fs, i: int, n: int, used: seq<bool>) {
    && |used| == g.size && |fs.used| == g.size
    && (forall b :: 0 <= b < g.size ==> used[b] == (fs.used[b] && !(b > 0 && NamedBelow(fs, i, n, b))))
  }

  function NoAddrs(): (addrs: seq<int>)
    ensures |addrs| == NDIRECT + 1 && forall k :: 0 <= k <= NDIRECT ==> addrs[k] == 0
  {
    seq(NDIRECT + 1, k => 0)
  }

  /** A file without blocks. */
  function Emptied(fs: Fs, i: int, used: seq<bool>, logged: set<int>): Fs {
    fs.(used := used, logged := logged, inodes := fs.inodes[i := Inode(NoAddrs(), 0)])
  }

  lemma EmptiedSlot(g: Geometry, fs: Fs, i: int, used: seq<bool>, logged: set<int>, j: int, l: int)
    ensures Slot(Emptied(fs, i, used, logged), j, l) == if i == j then 0 else Slot(fs, j, l)
  {
  }

  /** Truncation keeps every block owned once. */
  lemma EmptiedOwn(g: Geometry, fs: Fs, i: int, used: seq<bool>, logged: set<int>)
    requires Own(g, fs) && i in fs.inodes && |used| == g.size
    requires forall b :: 0 <= b < g.size ==> used[b] == (fs.used[b] && !(b > 0 && exists k :: Slot(fs, i, k) == b))
    ensures Own(g, Emptied(fs, i, used, logged))
  {
    var fs' := Emptied(fs, i, used, logged);
    forall j, l ensures SlotOk(g, fs', j, l) {
      EmptiedSlot(g, fs, i, used, logged, j, l);
      assert SlotOk(g, fs, j, l);
      forall k | j != i && Slot(fs, j, l) != 0 ensures Slot(fs, i, k) != Slot(fs, j, l) {
        assert SlotsApart(fs, j, l, i, k);
      }
    }
    forall j, l, p, q ensures SlotsApart(fs', j, l, p, q) {
      EmptiedSlot(g, fs, i, used, logged, j, l);
      EmptiedSlot(g, fs, i, used, logged, p, q);
      assert SlotsApart(fs, j, l, p, q);
    }
    forall b ensures UsedOk(g, fs', b) {
      assert UsedOk(g, fs, b);
      if 0 <= b < g.size && fs'.used[b] && b >= g.nmeta {
        var j, l :| Slot(fs, j, l) == b;
        EmptiedSlot(g, fs, i, used, logged, j, l);
        assert Slot(fs', j, l) == b;
      }
      forall k | 0 <= b < g.nmeta && b > 0 ensures Slot(fs, i, k) != b {
        assert SlotOk(g, fs, i, k);
      }
    }
  }
}
