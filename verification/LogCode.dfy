/** The decisions that `begin_op`, `log_write` and `end_op` take under `log.lock`. */
module LogPolicy {
  import opened LogDisk

  /** `logsize` is LOGSIZE, the capacity of the in-memory header; `maxop` is MAXOPBLOCKS. */
  datatype Config = Config(layout: Layout, logsize: nat, maxop: nat)

  /** `begin_op` lets an operation in when it is sure to find room. */
  predicate Admits(c: Config, used: nat, outstanding: int, committing: bool) {
    !committing && used + (outstanding + 1) * c.maxop <= c.logsize
  }

  /** The guard of `log_write`, which panics before it looks for absorption. */
  predicate TooBig(c: Config, used: nat) {
    used >= c.logsize || used >= c.layout.size - 1
  }

  /** A block that is in the transaction already is absorbed. */
  function Absorb(lh: seq<int>, b: int): seq<int> {
    if b in lh then lh else lh + [b]
  }

  datatype LogWriteResult = Logged | PanicTooBig | PanicOutsideTrans

  function LogWriteOutcome(c: Config, used: nat, outstanding: int): LogWriteResult {
    if TooBig(c, used) then PanicTooBig
    else if outstanding < 1 then PanicOutsideTrans
    else Logged
  }

  datatype EndResult = PanicCommitting | WakeOthers | MustCommit
}

/** `log.c`, statement by statement, over the buffer cache seen as a store of blocks. */
module LogCode {
  import opened LogDisk
  import opened LogPolicy

  /** The buffer cache as the log uses it: what `bread` returns is the pinned and modified
      buffer if there is one, and the disk block otherwise.  `trace` is the history of disk
      writes, the only points between which a crash can fall. */
  datatype Store = Store(disk: DiskMap, dirty: DiskMap, pins: set<int>, trace: seq<Write>) {

    function Bread(b: int): Block {
      if b in dirty then dirty[b] else if b in disk then disk[b] else []
    }

    function Bwrite(b: int, data: Block): Store {
      Store(disk[b := data], dirty - {b}, pins, trace + [Write(b, data)])
    }

    function Bpin(b: int): Store {
      this.(pins := pins + {b})
    }

    function Bunpin(b: int): Store {
      this.(pins := pins - {b})
    }
  }

  // --- what each loop of log.c has done after `n` turns --------------------------------

  function LogLoop(l: Layout, lh: seq<int>, st: Store, n: nat): Store
    requires n <= |lh|
  {
    if n == 0 then st
    else
      var s := LogLoop(l, lh, st, n - 1);
      s.Bwrite(l.start + n, s.Bread(lh[n - 1]))
  }

  function InstallLoop(l: Layout, lh: seq<int>, st: Store, recovering: bool, n: nat): Store
    requires n <= |lh|
  {
    if n == 0 then st
    else
      InstallTurn(l, lh[n - 1], InstallLoop(l, lh, st, recovering, n - 1), recovering, n)
  }

  function InstallTurn(l: Layout, b: int, st: Store, recovering: bool, n: nat): Store {
    var t := st.Bwrite(b, st.Bread(l.start + n));
    if recovering then t else t.Bunpin(b)
  }

  function Headed(l: Layout, lh: seq<int>, st: Store): Store {
    st.Bwrite(l.start, HeadBlock(st.Bread(l.start), lh))
  }

  function Committed(l: Layout, lh: seq<int>, st: Store): Store {
    if lh == [] then st
    else
      var s := Headed(l, lh, LogLoop(l, lh, st, |lh|));
      Headed(l, [], InstallLoop(l, lh, s, false, |lh|))
  }

  function Rebooted(l: Layout, st: Store): Store
    requires IsHead(st.Bread(l.start))
  {
    var lh := ReadHead(st.Bread(l.start));
    Headed(l, [], InstallLoop(l, lh, st, true, |lh|))
  }

  class Log {
    const c: Config
    var block: array<int>
    var n: nat
    var outstanding: int
    var committing: bool
    var store: Store

    ghost predicate Valid()
      reads this
    {
      block.Length == c.logsize && n <= c.logsize
    }

    ghost function Lh(): (lh: seq<int>)
      requires Valid()
      reads this, block
      ensures |lh| == n
    {
      block[..n]
    }

    constructor (c: Config, disk: DiskMap)
      ensures Valid() && this.c == c && fresh(block)
      ensures Lh() == [] && outstanding == 0 && !committing
      ensures store == Store(disk, map[], {}, [])
    {
      this.c := c;
      block := new int[c.logsize];
      n := 0;
      outstanding := 0;
      committing := false;
      store := Store(disk, map[], {}, []);
    }

    /** One pass of the loop in `begin_op`; a caller that is not admitted sleeps and retries. */
    method BeginOp() returns (admitted: bool)
      requires Valid()
      modifies this`outstanding
      ensures admitted == old(Admits(c, n, outstanding, committing))
      ensures outstanding == old(outstanding) + (if admitted then 1 else 0)
    {
      if committing {
        admitted := false;
      } else if n + (outstanding + 1) * c.maxop > c.logsize {
        admitted := false;
      } else {
        outstanding := outstanding + 1;
        admitted := true;
      }
    }

    method LogWrite(b: int) returns (r: LogWriteResult)
      requires Valid()
      modifies this`n, this`store, block
      ensures Valid()
      ensures r == LogWriteOutcome(c, old(n), outstanding)
      ensures Lh() == if r == Logged then Absorb(old(Lh()), b) else old(Lh())
      ensures store == if r == Logged && b !in old(Lh()) then old(store).Bpin(b) else old(store)
    {
      if n >= c.logsize || n >= c.layout.size - 1 {
        return PanicTooBig;
      }
      if outstanding < 1 {
        return PanicOutsideTrans;
      }
      var i := 0;
      while i < n && block[i] != b
        invariant 0 <= i <= n
        invariant forall j :: 0 <= j < i ==> block[j] != b
      {
        i := i + 1;
      }
      block[i] := b;
      if i == n {
        store := store.Bpin(b);
        n := n + 1;
      }
      return Logged;
    }

    /** `write_log` copies every logged block, as the cache has it, to the log. */
    method WriteLog()
      requires Valid()
      modifies this`store
      ensures store == LogLoop(c.layout, Lh(), old(store), n)
    {
      var tail := 0;
      while tail < n
        invariant 0 <= tail <= n
        invariant store == LogLoop(c.layout, Lh(), old(store), tail)
      {
        var from := store.Bread(block[tail]);
        store := store.Bwrite(c.layout.start + tail + 1, from);
        tail := tail + 1;
      }
    }

    /** `write_head` puts the count and the block numbers over the old header. */
    method WriteHead()
      requires Valid() && n < |store.Bread(c.layout.start)|
      modifies this`store
      ensures store == Headed(c.layout, Lh(), old(store))
    {
      var hb := store.Bread(c.layout.start);
      ghost var was := hb;
      hb := hb[0 := n];
      var i := 0;
      while i < n
        invariant 0 <= i <= n && |hb| == |was|
        invariant hb == [n] + block[..i] + was[1 + i..]
      {
        hb := hb[1 + i := block[i]];
        i := i + 1;
      }
      store := store.Bwrite(c.layout.start, hb);
    }

    /** `read_head` makes the header on disk the one in memory. */
    method ReadHeader()
      requires Valid() && IsHead(store.Bread(c.layout.start))
      requires |ReadHead(store.Bread(c.layout.start))| <= c.logsize
      modifies this`n, block
      ensures Valid() && Lh() == ReadHead(store.Bread(c.layout.start))
    {
      var hb := store.Bread(c.layout.start);
      n := hb[0];
      var i := 0;
      while i < n
        invariant 0 <= i <= n == hb[0]
        invariant block[..i] == hb[1..1 + i]
      {
        block[i] := hb[1 + i];
        i := i + 1;
      }
    }

    /** `install_trans` copies every logged block home and, after a commit, unpins it. */
    method InstallTrans(recovering: bool)
      requires Valid()
      modifies this`store
      ensures store == InstallLoop(c.layout, Lh(), old(store), recovering, n)
    {
      var tail := 0;
      while tail < n
        invariant 0 <= tail <= n
        invariant store == InstallLoop(c.layout, Lh(), old(store), recovering, tail)
      {
        var lbuf := store.Bread(c.layout.start + tail + 1);
        store := store.Bwrite(block[tail], lbuf);
        if !recovering {
          store := store.Bunpin(block[tail]);
        }
        tail := tail + 1;
      }
    }

    method Commit()
      requires Valid() && Ready(c.layout, Lh(), store)
      modifies this`store, this`n
      ensures Valid() && n == 0
      ensures store == Committed(c.layout, old(Lh()), old(store))
    {
      if n > 0 {
        ghost var lh := Lh();
        HeaderSizes(c.layout, lh, store);
        WriteLog();
        WriteHead();
        InstallTrans(false);
        n := 0;
        WriteHead();
      }
    }

    /** `end_op`: the last operation out commits.  `r` says which way it went. */
    method EndOp() returns (r: EndResult)
      requires Valid() && (outstanding == 1 && !committing ==> Ready(c.layout, Lh(), store))
      modifies this`outstanding, this`committing, this`store, this`n
      ensures Valid() && outstanding == old(outstanding) - 1
      ensures r == (if old(committing) then PanicCommitting
                    else if old(outstanding) == 1 then MustCommit else WakeOthers)
      ensures committing == old(committing)
      ensures if r == MustCommit then n == 0 && store == Committed(c.layout, old(Lh()), old(store))
              else n == old(n) && store == old(store)
    {
      outstanding := outstanding - 1;
      if committing {
        return PanicCommitting;
      }
      if outstanding == 0 {
        committing := true;
        Commit();
        committing := false;
        return MustCommit;
      }
      return WakeOthers;
    }

    /** `recover_from_log`, on a cache that has nothing in it yet. */
    method RecoverFromLog()
      requires Valid() && store.dirty == map[]
      requires GoodDisk(c.layout, store.disk) && |OnDisk(c.layout, store.disk)| <= c.logsize
      modifies this`store, this`n, block
      ensures Valid() && n == 0
      ensures old(IsHead(store.Bread(c.layout.start))) && store == Rebooted(c.layout, old(store))
    {
      assert InLog(c.layout, c.layout.start);
      InstallLoopLog(c.layout, OnDisk(c.layout, store.disk), store, true, |OnDisk(c.layout, store.disk)|,
                     c.layout.start);
      ReadHeader();
      InstallTrans(true);
      n := 0;
      WriteHead();
    }
  }

  // --- the loops against the write sequences of LogDisk ----------------------------------

  /** Buffers of log blocks are written through, never left dirty. */
  predicate LogClean(l: Layout, dirty: DiskMap) {
    forall b :: b in dirty ==> !InLog(l, b)
  }

  /** What `commit` finds: a formatted log and a transaction that fits it. */
  ghost predicate Ready(l: Layout, lh: seq<int>, st: Store) {
    GoodDisk(l, st.disk) && Loggable(l, st.disk, lh) && LogClean(l, st.dirty)
  }

  lemma ApplyLast(d: DiskMap, ws: seq<Write>, w: Write)
    ensures Apply(d, ws + [w]) == Apply(d, ws)[w.blockno := w.data]
  {
    assert (ws + [w])[..|ws|] == ws;
  }

  lemma StaysClean(l: Layout, dirty: DiskMap, i: nat)
    requires i < l.size && LogClean(l, dirty)
    ensures l.start + i !in dirty && dirty - {l.start + i} == dirty
  {
    assert InLog(l, l.start + i);
  }

  /** `st` comes from `st0` by the disk writes `ws`. */
  predicate Extends(st0: Store, st: Store, ws: seq<Write>) {
    st.trace == st0.trace + ws && st.disk == Apply(st0.disk, ws)
  }

  lemma BwriteExtends(st0: Store, st: Store, ws: seq<Write>, b: int, data: Block)
    requires Extends(st0, st, ws)
    ensures Extends(st0, st.Bwrite(b, data), ws + [Write(b, data)])
  {
    ApplyLast(st0.disk, ws, Write(b, data));
  }

  /** Writing the log does not disturb the home blocks. */
  lemma {:induction false} LogLoopHome(l: Layout, lh: seq<int>, st: Store, n: nat, b: int)
    requires n <= |lh| < l.size && !InLog(l, b)
    ensures LogLoop(l, lh, st, n).Bread(b) == st.Bread(b)
  {
    if n > 0 {
      LogLoopHome(l, lh, st, n - 1, b);
      assert InLog(l, l.start + n);
    }
  }

  lemma {:induction false} LogLoopKeeps(l: Layout, lh: seq<int>, st: Store, n: nat)
    requires n <= |lh| < l.size && LogClean(l, st.dirty)
    ensures LogLoop(l, lh, st, n).dirty == st.dirty && LogLoop(l, lh, st, n).pins == st.pins
    ensures 0 < l.size ==> LogLoop(l, lh, st, n).Bread(l.start) == st.Bread(l.start)
  {
    if n > 0 {
      LogLoopKeeps(l, lh, st, n - 1);
      StaysClean(l, st.dirty, n);
    }
  }

  /** `write_log` performs the writes of `LogWrites`. */
  lemma {:induction false} LogLoopWrites(l: Layout, lh: seq<int>, st: Store, view: DiskMap, n: nat)
    requires n <= |lh| && Placed(l, lh)
    requires forall i :: 0 <= i < |lh| ==> lh[i] in view && view[lh[i]] == st.Bread(lh[i])
    ensures Extends(st, LogLoop(l, lh, st, n), LogWrites(l, lh, view, n))
  {
    if n > 0 {
      LogLoopWrites(l, lh, st, view, n - 1);
      LogLoopHome(l, lh, st, n - 1, lh[n - 1]);
      BwriteExtends(st, LogLoop(l, lh, st, n - 1), LogWrites(l, lh, view, n - 1), l.start + n, view[lh[n - 1]]);
    }
  }

  function First(lh: seq<int>, n: nat): set<int>
    requires n <= |lh|
  {
    set i | 0 <= i < n :: lh[i]
  }

  /** The transaction fits in the log and does not touch it. */
  predicate Placed(l: Layout, lh: seq<int>) {
    |lh| < l.size && forall i :: 0 <= i < |lh| ==> !InLog(l, lh[i])
  }

  lemma {:induction false} InstallLoopKeeps(l: Layout, lh: seq<int>, st: Store, recovering: bool, n: nat)
    requires n <= |lh|
    ensures var s := InstallLoop(l, lh, st, recovering, n);
            && s.dirty == st.dirty - First(lh, n)
            && s.pins == if recovering then st.pins else st.pins - First(lh, n)
  {
    if n > 0 {
      InstallLoopKeeps(l, lh, st, recovering, n - 1);
      assert First(lh, n) == First(lh, n - 1) + {lh[n - 1]};
    }
  }

  /** Installing does not disturb the log. */
  lemma {:induction false} InstallLoopLog(l: Layout, lh: seq<int>, st: Store, recovering: bool, n: nat, b: int)
    requires n <= |lh| && Placed(l, lh) && InLog(l, b)
    ensures InstallLoop(l, lh, st, recovering, n).Bread(b) == st.Bread(b)
  {
    if n > 0 {
      InstallLoopLog(l, lh, st, recovering, n - 1, b);
    }
  }

  lemma TurnExtends(st0: Store, l: Layout, b: int, st: Store, recovering: bool, n: nat, ws: seq<Write>, data: Block)
    requires Extends(st0, st, ws) && st.Bread(l.start + n) == data
    ensures Extends(st0, InstallTurn(l, b, st, recovering, n), ws + [Write(b, data)])
  {
    BwriteExtends(st0, st, ws, b, data);
  }

  /** `install_trans` performs the writes of `InstallWrites`. */
  lemma {:induction false} InstallLoopWrites(l: Layout, lh: seq<int>, st: Store, recovering: bool, n: nat)
    requires Placed(l, lh) && n <= |lh|
    requires forall b :: InLog(l, b) ==> b in st.disk && st.disk[b] == st.Bread(b)
    ensures Extends(st, InstallLoop(l, lh, st, recovering, n), InstallWrites(l, lh, st.disk, n))
  {
    if n > 0 {
      InstallLoopWrites(l, lh, st, recovering, n - 1);
      assert InLog(l, l.start + n);
      InstallLoopLog(l, lh, st, recovering, n - 1, l.start + n);
      var s, ws := InstallLoop(l, lh, st, recovering, n - 1), InstallWrites(l, lh, st.disk, n - 1);
      TurnExtends(st, l, lh[n - 1], s, recovering, n, ws, st.disk[l.start + n]);
      assert InstallLoop(l, lh, st, recovering, n) == InstallTurn(l, lh[n - 1], s, recovering, n);
      assert InstallWrites(l, lh, st.disk, n) == ws + [Write(lh[n - 1], st.disk[l.start + n])];
    }
  }

  lemma ExtendsTwice(a: Store, b: Store, c: Store, ws: seq<Write>, xs: seq<Write>)
    requires Extends(a, b, ws) && Extends(b, c, xs)
    ensures Extends(a, c, ws + xs)
  {
    ApplyAppend(a.disk, ws, xs);
  }

  /** Every header that `commit` overwrites has room for the new one. */
  lemma HeaderSizes(l: Layout, lh: seq<int>, st: Store)
    requires Ready(l, lh, st)
    ensures LogLoop(l, lh, st, |lh|).Bread(l.start) == st.Bread(l.start) == st.disk[l.start]
    ensures |lh| < |st.disk[l.start]|
    ensures var s := Headed(l, lh, LogLoop(l, lh, st, |lh|));
            0 < |InstallLoop(l, lh, s, false, |lh|).Bread(l.start)|
            && InstallLoop(l, lh, s, false, |lh|).Bread(l.start) == s.Bread(l.start)
  {
    LogLoopKeeps(l, lh, st, |lh|);
    StaysClean(l, st.dirty, 0);
    InstallLoopLog(l, lh, Headed(l, lh, LogLoop(l, lh, st, |lh|)), false, |lh|, l.start);
  }

  lemma HeadedWrites(l: Layout, lh: seq<int>, st: Store)
    requires Ready(l, lh, st)
    ensures Extends(st, Headed(l, lh, LogLoop(l, lh, st, |lh|)), HeadWrites(l, st.disk, lh, st.disk + st.dirty))
  {
    var view := st.disk + st.dirty;
    HeaderSizes(l, lh, st);
    LogLoopWrites(l, lh, st, view, |lh|);
    BwriteExtends(st, LogLoop(l, lh, st, |lh|), LogWrites(l, lh, view, |lh|),
                  l.start, HeadBlock(st.disk[l.start], lh));
  }

  lemma ClearedWrites(l: Layout, lh: seq<int>, st: Store, recovering: bool)
    requires 0 < l.size && Placed(l, lh)
    requires forall b :: InLog(l, b) ==> b in st.disk && st.disk[b] == st.Bread(b)
    ensures Extends(st, Headed(l, [], InstallLoop(l, lh, st, recovering, |lh|)),
                    ClearWrites(l, lh, st.disk, st.Bread(l.start)))
  {
    InstallLoopWrites(l, lh, st, recovering, |lh|);
    assert InLog(l, l.start);
    InstallLoopLog(l, lh, st, recovering, |lh|, l.start);
    BwriteExtends(st, InstallLoop(l, lh, st, recovering, |lh|), InstallWrites(l, lh, st.disk, |lh|),
                  l.start, HeadBlock(st.Bread(l.start), []));
  }

  /** After the header is written the log blocks are those that `write_log` wrote. */
  lemma HeadedLog(l: Layout, lh: seq<int>, st: Store)
    requires Ready(l, lh, st)
    ensures var s := Headed(l, lh, LogLoop(l, lh, st, |lh|));
            var d1 := Apply(st.disk, LogWrites(l, lh, st.disk + st.dirty, |lh|));
            && s.Bread(l.start) == HeadBlock(st.disk[l.start], lh)
            && s.disk == d1[l.start := HeadBlock(st.disk[l.start], lh)]
            && (forall b :: InLog(l, b) ==> b in d1 && b in s.disk && s.disk[b] == s.Bread(b))
  {
    var ws := LogWrites(l, lh, st.disk + st.dirty, |lh|);
    LogLoopWrites(l, lh, st, st.disk + st.dirty, |lh|);
    HeaderSizes(l, lh, st);
    LogLoopKeeps(l, lh, st, |lh|);
    ApplyKeys(st.disk, ws);
  }

  /** `commit` performs the writes of `CommitWrites`, one at a time and in that order. */
  lemma CommittedWrites(l: Layout, lh: seq<int>, st: Store)
    requires Ready(l, lh, st)
    ensures Extends(st, Committed(l, lh, st), CommitWrites(l, st.disk, lh, st.disk + st.dirty))
  {
    if lh != [] {
      var s := Headed(l, lh, LogLoop(l, lh, st, |lh|));
      HeadedWrites(l, lh, st);
      HeadedLog(l, lh, st);
      ClearedWrites(l, lh, s, false);
      SameInstall(l, lh, Apply(st.disk, LogWrites(l, lh, st.disk + st.dirty, |lh|)), s.disk);
      ExtendsTwice(st, s, Committed(l, lh, st), HeadWrites(l, st.disk, lh, st.disk + st.dirty),
                   ClearWrites(l, lh, s.disk, s.Bread(l.start)));
    }
  }

  /** `commit` lets go of exactly the blocks of the transaction. */
  lemma CommittedUnpins(l: Layout, lh: seq<int>, st: Store)
    requires Ready(l, lh, st)
    ensures Committed(l, lh, st).pins == st.pins - First(lh, |lh|)
    ensures Committed(l, lh, st).dirty == st.dirty - First(lh, |lh|)
  {
    if lh != [] {
      LogLoopKeeps(l, lh, st, |lh|);
      StaysClean(l, st.dirty, 0);
      InstallLoopKeeps(l, lh, Headed(l, lh, LogLoop(l, lh, st, |lh|)), false, |lh|);
    }
  }

  /** `recover_from_log` performs the writes of `RecoverWrites`. */
  lemma RebootedWrites(l: Layout, st: Store)
    requires st.dirty == map[] && GoodDisk(l, st.disk)
    ensures IsHead(st.Bread(l.start))
    ensures Extends(st, Rebooted(l, st), RecoverWrites(l, st.disk))
  {
    assert InLog(l, l.start);
    ClearedWrites(l, OnDisk(l, st.disk), st, true);
  }

  /** The commit of `log.c`, stopped by a crash after any `k` of its disk writes: recovery,
      however often it is interrupted itself, installs the whole transaction if the header
      had reached the disk and nothing of it if it had not. */
  lemma CommitCrashSafe(l: Layout, lh: seq<int>, st: Store, k: nat, ks: seq<nat>)
    requires Ready(l, lh, st) && OnDisk(l, st.disk) == []
    requires |st.trace| <= |st.trace| + k <= |Committed(l, lh, st).trace|
    ensures var done := Committed(l, lh, st).trace[|st.trace|..|st.trace| + k];
            && GoodDisk(l, Apply(st.disk, done))
            && Home(l, AfterCrashes(l, Apply(st.disk, done), ks))
            == if k <= |lh| then Home(l, st.disk) else Installed(Home(l, st.disk), lh, st.disk + st.dirty)
  {
    var view := st.disk + st.dirty;
    CommittedWrites(l, lh, st);
    var all := CommitWrites(l, st.disk, lh, view);
    assert (st.trace + all)[|st.trace|..|st.trace| + k] == all[..k];
    CrashAtomic(l, st.disk, lh, view, k, ks);
  }
}
