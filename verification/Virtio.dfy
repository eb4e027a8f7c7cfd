/** The descriptor table and rings of the virtio disk driver, as values. */
module VirtQueue {

  /** Ring indices are 16 bits wide. */
  const WRAP: int := 0x1_0000

  /** What the driver puts in `addr`: a command, a buffer's data, or a status byte. */
  datatype Target = Nothing | Command(op: int) | Data(buf: int) | Status(info: int)

  datatype Desc = Desc(target: Target, write: bool, hasNext: bool, next: int)

  const ZERO := Desc(Nothing, false, false, 0)

  /** `buf` is -1 for a null pointer. */
  datatype Info = Info(buf: int, status: int)

  datatype Op = Op(write: bool, sector: int)

  datatype Disk = Disk(
    free: seq<bool>, desc: seq<Desc>, info: seq<Info>, ops: seq<Op>,
    avail: seq<int>, availIdx: int,   // written by the driver
    used: seq<int>, usedIdx: int,     // written by the device
    seen: int)                        // disk.used_idx

  predicate SizeOk(num: int) {
    0 < num < WRAP && WRAP % num == 0
  }

  predicate Shaped(d: Disk) {
    && SizeOk(|d.free|)
    && |d.desc| == |d.free| && |d.info| == |d.free| && |d.ops| == |d.free|
    && |d.avail| == |d.free| && |d.used| == |d.free|
  }

  // --- allocating and freeing descriptors ----------------------------------------------------

  /** The lowest free descriptor from `i` on, or -1. */
  function FirstFree(free: seq<bool>, i: nat): (r: int)
    requires i <= |free|
    ensures r == -1 || (i <= r < |free| && free[r])
    ensures forall j :: i <= j < (if r == -1 then |free| else r) ==> !free[j]
    decreases |free| - i
  {
    if i == |free| then -1 else if free[i] then i else FirstFree(free, i + 1)
  }

  function Release(d: Disk, i: int): Disk
    requires 0 <= i < |d.free| && |d.desc| == |d.free|
  {
    d.(free := d.free[i := true], desc := d.desc[i := ZERO])
  }

  /** Three descriptors linked into one request. */
  datatype Chain = Chain(head: int, data: int, status: int)

  predicate InTable(free: seq<bool>, c: Chain) {
    && 0 <= c.head < |free| && 0 <= c.data < |free| && 0 <= c.status < |free|
    && c.head != c.data && c.head != c.status && c.data != c.status
  }

  predicate Linked(d: Disk, c: Chain) {
    && InTable(d.free, c) && |d.desc| == |d.free|
    && !d.free[c.head] && !d.free[c.data] && !d.free[c.status]
    && d.desc[c.head].hasNext && d.desc[c.head].next == c.data
    && d.desc[c.data].hasNext && d.desc[c.data].next == c.status
    && !d.desc[c.status].hasNext
  }

  function ReleaseChain(d: Disk, c: Chain): Disk
    requires Linked(d, c)
  {
    Release(Release(Release(d, c.head), c.data), c.status)
  }

  /** `idx` are the lowest free descriptors, in order. */
  predicate Lowest(free: seq<bool>, idx: seq<int>) {
    && (forall k :: 0 <= k < |idx| ==> 0 <= idx[k] < |free| && free[idx[k]])
    && (forall k, m :: 0 <= k < m < |idx| ==> idx[k] < idx[m])
    && (idx != [] ==> forall j :: 0 <= j < idx[|idx| - 1] && j !in idx ==> !free[j])
  }

  /** The free flags once the descriptors in `idx` are taken. */
  function Taken(free: seq<bool>, idx: seq<int>): (r: seq<bool>)
    ensures |r| == |free| && forall j :: 0 <= j < |free| ==> r[j] == (free[j] && j !in idx)
  {
    seq(|free|, j requires 0 <= j < |free| => free[j] && j !in idx)
  }

  predicate FreeIsZero(d: Disk) {
    |d.desc| == |d.free| && forall i :: 0 <= i < |d.free| && d.free[i] ==> d.desc[i] == ZERO
  }

  lemma TookNone(free: seq<bool>)
    ensures Taken(free, []) == free && Lowest(free, [])
  {
  }

  /** Giving back one of the descriptors that were taken. */
  lemma GiveBackNext(d: Disk, idx: seq<int>, j: nat)
    requires |d.desc| == |d.free| && FreeIsZero(d) && Lowest(d.free, idx) && j < |idx|
    ensures var d' := d.(free := Taken(d.free, idx[j..]));
            && 0 <= idx[j] < |d'.free| && !d'.free[idx[j]]
            && Release(d', idx[j]) == d.(free := Taken(d.free, idx[j + 1..]))
  {
    var now, next := Taken(d.free, idx[j..]), Taken(d.free, idx[j + 1..]);
    assert idx[j..][0] == idx[j];
    assert idx[j..] == [idx[j]] + idx[j + 1..];
    forall i | 0 <= i < |d.free| ensures now[idx[j] := true][i] == next[i] {
      assert i in idx[j..] <==> i == idx[j] || i in idx[j + 1..];
      if i == idx[j] {
        assert i !in idx[j + 1..];
      }
    }
    assert now[idx[j] := true] == next;
    assert d.desc[idx[j] := ZERO] == d.desc;
  }

  lemma TakeNext(free: seq<bool>, idx: seq<int>, r: int)
    requires Lowest(free, idx) && r == FirstFree(Taken(free, idx), 0) && r != -1
    ensures Lowest(free, idx + [r]) && Taken(free, idx)[r := false] == Taken(free, idx + [r])
  {
    if idx != [] {
      assert idx[|idx| - 1] < r;
    }
  }

  /** If no more can be taken, all that were free are in `idx`. */
  lemma TookAll(free: seq<bool>, idx: seq<int>)
    requires Lowest(free, idx) && |idx| < 3 && FirstFree(Taken(free, idx), 0) == -1
    ensures FewerThanThree(free)
  {
    forall j | 0 <= j < |free| && free[j] ensures j in idx {
      assert !Taken(free, idx)[j];
    }
  }

  function Indices(c: Chain): seq<int> {
    [c.head, c.data, c.status]
  }

  /** Fewer than three descriptors are free. */
  predicate FewerThanThree(free: seq<bool>) {
    forall i, j, k :: 0 <= i < j < k < |free| ==> !(free[i] && free[j] && free[k])
  }

  /** The descriptors, command and ring entry of a request for block `blockno`, whose sector
      number is in units of 512 bytes. */
  function FilledIn(d: Disk, c: Chain, buf: int, blockno: int, write: bool): Disk
    requires Shaped(d) && InTable(d.free, c)
  {
    d.(desc := d.desc[c.head := Desc(Command(c.head), false, true, c.data)]
                     [c.data := Desc(Data(buf), !write, true, c.status)]
                     [c.status := Desc(Status(c.head), true, false, 0)],
       ops := d.ops[c.head := Op(write, blockno * 2)],
       info := d.info[c.head := Info(buf, 0xff)],
       avail := d.avail[d.availIdx % |d.avail| := c.head],
       availIdx := (d.availIdx + 1) % WRAP)
  }

  function Submitted(d: Disk, c: Chain, buf: int, blockno: int, write: bool): Disk
    requires Shaped(d) && InTable(d.free, c)
  {
    FilledIn(d.(free := Taken(d.free, Indices(c))), c, buf, blockno, write)
  }
}

/** `virtio_disk_rw` and `virtio_disk_intr`, statement by statement. */
module VirtioDriver {
  import opened Modular
  import opened VirtQueue

  class Driver {
    var d: Disk
    var busy: set<int>   // the buffers whose `disk` field is set

    constructor (d: Disk)
      ensures this.d == d && busy == {}
    {
      this.d := d;
      busy := {};
    }

    method AllocDesc() returns (r: int)
      modifies this`d
      ensures r == FirstFree(old(d).free, 0)
      ensures d == if r == -1 then old(d) else old(d).(free := old(d).free[r := false])
    {
      var i := 0;
      while i < |d.free|
        invariant 0 <= i <= |d.free| && d == old(d)
        invariant FirstFree(d.free, 0) == FirstFree(d.free, i)
      {
        if d.free[i] {
          d := d.(free := d.free[i := false]);
          return i;
        }
        i := i + 1;
      }
      return -1;
    }

    /** Returns false where the code panics. */
    method FreeDesc(i: int) returns (ok: bool)
      requires 0 <= i && |d.desc| == |d.free|
      modifies this`d
      ensures ok <==> i < |old(d).free| && !old(d).free[i]
      ensures d == if ok then Release(old(d), i) else old(d)
    {
      if i >= |d.free| {
        return false;
      }
      if d.free[i] {
        return false;
      }
      d := d.(desc := d.desc[i := ZERO]);
      d := d.(free := d.free[i := true]);
      return true;
    }

    /** Follows the `next` links; on a chain that the driver built, nothing panics and exactly
        its three descriptors become free. */
    method FreeChain(head: int, ghost c: Chain) returns (ok: bool)
      requires Linked(d, c) && c.head == head
      modifies this`d
      ensures ok && d == ReleaseChain(old(d), c)
    {
      var i, more := head, true;
      ok := true;
      ghost var n := 0;
      while more
        invariant 0 <= n <= 3 && ok && (more <==> n < 3)
        invariant |d.desc| == |d.free| == |old(d).free|
        invariant n == 0 ==> d == old(d) && i == c.head
        invariant n == 1 ==> d == Release(old(d), c.head) && i == c.data
        invariant n == 2 ==> d == Release(Release(old(d), c.head), c.data) && i == c.status
        invariant n == 3 ==> d == ReleaseChain(old(d), c)
        decreases 3 - n
      {
        var flag, nxt := d.desc[i].hasNext, d.desc[i].next;
        ok := FreeDesc(i);
        if flag {
          i := nxt;
        } else {
          more := false;
        }
        n := n + 1;
      }
    }

    /** Three descriptors or none: a failed attempt gives back what it took. */
    method Alloc3Desc() returns (ok: bool, idx: seq<int>)
      requires |d.desc| == |d.free| && FreeIsZero(d)
      modifies this`d
      ensures ok ==> |idx| == 3 && Lowest(old(d).free, idx) && d == old(d).(free := Taken(old(d).free, idx))
      ensures !ok ==> FewerThanThree(old(d).free) && d == old(d)
    {
      ghost var free := d.free;
      idx := [];
      TookNone(free);
      while |idx| < 3
        invariant |idx| <= 3 && Lowest(free, idx)
        invariant d == old(d).(free := Taken(free, idx))
        decreases 3 - |idx|
      {
        var r := AllocDesc();
        if r < 0 {
          TookAll(free, idx);
          GiveBack(idx, old(d));
          return false, idx;
        }
        TakeNext(free, idx, r);
        idx := idx + [r];
      }
      return true, idx;
    }

    /** Free the descriptors that a failed attempt took from `d0`. */
    method GiveBack(idx: seq<int>, ghost d0: Disk)
      requires |d0.desc| == |d0.free| && FreeIsZero(d0) && Lowest(d0.free, idx) && d == d0.(free := Taken(d0.free, idx))
      modifies this`d
      ensures d == d0
    {
      var j := 0;
      assert idx[0..] == idx;
      while j < |idx|
        invariant 0 <= j <= |idx| && d == d0.(free := Taken(d0.free, idx[j..]))
      {
        GiveBackNext(d0, idx, j);
        var _ := FreeDesc(idx[j]);
        j := j + 1;
      }
      TookNone(d0.free);
      assert idx[j..] == [];
    }

    /** The part of `virtio_disk_rw` up to the wait: on success the request is in the available
        ring; otherwise nothing has changed and the caller sleeps until descriptors are freed. */
    method Submit(buf: int, blockno: int, write: bool) returns (ok: bool, c: Chain)
      requires Shaped(d) && FreeIsZero(d)
      modifies this`d, this`busy
      ensures ok ==> Lowest(old(d).free, Indices(c)) && InTable(old(d).free, c)
      ensures ok ==> d == Submitted(old(d), c, buf, blockno, write)
      ensures busy == old(busy) + (if ok then {buf} else {})
      ensures !ok ==> FewerThanThree(old(d).free) && d == old(d)
    {
      var idx;
      ok, idx := Alloc3Desc();
      c := Chain(0, 0, 0);
      if !ok {
        return;
      }
      c := Chain(idx[0], idx[1], idx[2]);
      assert Indices(c) == idx;
      FillIn(c, buf, blockno, write);
    }

    /** The statements that describe the request and put it in the ring. */
    method FillIn(c: Chain, buf: int, blockno: int, write: bool)
      requires Shaped(d) && InTable(d.free, c)
      modifies this`d, this`busy
      ensures d == FilledIn(old(d), c, buf, blockno, write) && busy == old(busy) + {buf}
    {
      d := d.(ops := d.ops[c.head := Op(write, blockno * (1024 / 512))]);
      d := d.(desc := d.desc[c.head := Desc(Command(c.head), false, true, c.data)]);
      d := d.(desc := d.desc[c.data := Desc(Data(buf), !write, true, c.status)]);
      d := d.(info := d.info[c.head := d.info[c.head].(status := 0xff)]);
      d := d.(desc := d.desc[c.status := Desc(Status(c.head), true, false, 0)]);
      busy := busy + {buf};
      d := d.(info := d.info[c.head := d.info[c.head].(buf := buf)]);
      d := d.(avail := d.avail[d.availIdx % |d.avail| := c.head]);
      d := d.(availIdx := (d.availIdx + 1) % WRAP);
    }

    /** The part of `virtio_disk_rw` after the wait. */
    method Finish(head: int, ghost c: Chain) returns (ok: bool)
      requires Shaped(d) && Linked(d, c) && c.head == head
      modifies this`d
      ensures ok && d == ReleaseChain(old(d), c).(info := old(d).info[head := old(d).info[head].(buf := -1)])
    {
      d := d.(info := d.info[head := d.info[head].(buf := -1)]);
      ok := FreeChain(head, c);
    }

    /** The loop of `virtio_disk_intr` over the `n` entries that the device has added.  Returns
        false where the code panics. */
    method Intr(ghost n: nat) returns (ok: bool)
      requires 0 < |d.used| && 0 <= d.seen < WRAP && n < WRAP && d.usedIdx == (d.seen + n) % WRAP
      modifies this`d, this`busy
      ensures ok == IntrLoop(old(d), old(busy), n).ok
      ensures ok ==> (d, busy) == (IntrLoop(old(d), old(busy), n).d, IntrLoop(old(d), old(busy), n).busy)
    {
      ok := true;
      ghost var m := 0;
      while d.seen != d.usedIdx
        invariant 0 <= m <= n && Intrd(d, busy, ok) == IntrLoop(old(d), old(busy), m) && ok
        decreases n - m
      {
        IntrDone(old(d), old(busy), m, n);
        ok := IntrEntry();
        m := m + 1;
        if !ok {
          IntrStops(old(d), old(busy), m, n);
          return;
        }
      }
      IntrDone(old(d), old(busy), m, n);
    }

    /** The body of the loop. */
    method IntrEntry() returns (ok: bool)
      requires 0 < |d.used| && 0 <= d.seen
      modifies this`d, this`busy
      ensures Intrd(d, busy, ok) == IntrOne(Intrd(old(d), old(busy), true))
    {
      var id := d.used[d.seen % |d.used|];
      if !(0 <= id < |d.info|) || d.info[id].status != 0 {
        return false;
      }
      busy := busy - {d.info[id].buf};
      d := d.(seen := (d.seen + 1) % WRAP);
      return true;
    }
  }

  datatype Intrd = Intrd(d: Disk, busy: set<int>, ok: bool)

  /** One used entry: the buffer that its chain was for is no longer busy. */
  function IntrOne(x: Intrd): Intrd
    requires 0 < |x.d.used| && 0 <= x.d.seen
  {
    var id := x.d.used[x.d.seen % |x.d.used|];
    if !x.ok || !(0 <= id < |x.d.info|) || x.d.info[id].status != 0 then x.(ok := false)
    else Intrd(x.d.(seen := (x.d.seen + 1) % WRAP), x.busy - {x.d.info[id].buf}, true)
  }

  function IntrLoop(d: Disk, busy: set<int>, n: nat): (x: Intrd)
    requires 0 < |d.used| && 0 <= d.seen
    ensures |x.d.used| == |d.used| && 0 <= x.d.seen
  {
    if n == 0 then Intrd(d, busy, true) else IntrOne(IntrLoop(d, busy, n - 1))
  }

  lemma {:induction false} IntrSeen(d: Disk, busy: set<int>, n: nat)
    requires 0 < |d.used| && 0 <= d.seen < WRAP
    ensures var x := IntrLoop(d, busy, n);
            && x.d == d.(seen := x.d.seen)
            && (x.ok ==> x.d.seen == (d.seen + n) % WRAP)
  {
    if n > 0 {
      IntrSeen(d, busy, n - 1);
      WrapAdd(WRAP, d.seen + n - 1, 1);
    }
  }

  /** The handler's test tells whether all `n` entries have been seen. */
  lemma IntrDone(d: Disk, busy: set<int>, m: nat, n: nat)
    requires 0 < |d.used| && 0 <= d.seen < WRAP && m <= n < WRAP && d.usedIdx == (d.seen + n) % WRAP
    requires IntrLoop(d, busy, m).ok
    ensures var x := IntrLoop(d, busy, m);
            && (x.d.seen == x.d.usedIdx <==> m == n)
  {
    IntrSeen(d, busy, m);
    ModInjective(WRAP, d.seen + m, d.seen + n);
  }

  lemma {:induction false} IntrStops(d: Disk, busy: set<int>, m: nat, n: nat)
    requires 0 < |d.used| && 0 <= d.seen && m <= n && !IntrLoop(d, busy, m).ok
    ensures !IntrLoop(d, busy, n).ok
  {
    if m < n {
      IntrStops(d, busy, m, n - 1);
    }
  }
}
