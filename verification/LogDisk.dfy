/** The write-ahead log of the file system as it appears on disk.

    A disk is a map from block number to contents.  The only way to change it is a `Write`,
    which is atomic: a crash falls between two writes.  This module gives, as sequences of
    writes, what `commit` and `recover_from_log` do to the disk, and proves that a crash
    anywhere in a commit, followed by any number of crashes during recovery, leaves either
    the whole transaction or none of it. */
module LogDisk {

  /** A block is a sequence of 32-bit words; its length never changes. */
  type Block = seq<int>

  type DiskMap = map<int, Block>

  datatype Write = Write(blockno: int, data: Block)

  /** The log occupies blocks `start .. start + size`: a header, then the logged copies. */
  datatype Layout = Layout(start: int, size: int)

  predicate InLog(l: Layout, b: int) {
    l.start <= b < l.start + l.size
  }

  /** Everything a file system client can see: the blocks outside the log. */
  function Home(l: Layout, d: DiskMap): DiskMap {
    map b | b in d && !InLog(l, b) :: d[b]
  }

  function Apply(d: DiskMap, ws: seq<Write>): DiskMap {
    if ws == [] then d
    else
      var last := ws[|ws| - 1];
      Apply(d, ws[..|ws| - 1])[last.blockno := last.data]
  }

  // --- the header block -------------------------------------------------------------

  /** `write_head` stores the count and that many block numbers, and keeps the rest. */
  function HeadBlock(was: Block, lh: seq<int>): (b: Block)
    ensures |lh| < |was| ==> |b| == |was|
  {
    [|lh|] + lh + (if |lh| < |was| then was[1 + |lh|..] else [])
  }

  predicate IsHead(b: Block) {
    0 < |b| && 0 <= b[0] < |b|
  }

  /** `read_head` trusts the count that it finds. */
  function ReadHead(b: Block): seq<int>
    requires IsHead(b)
  {
    b[1..1 + b[0]]
  }

  lemma HeadRoundTrip(was: Block, lh: seq<int>)
    requires |lh| < |was|
    ensures IsHead(HeadBlock(was, lh))
    ensures ReadHead(HeadBlock(was, lh)) == lh
  {
  }

  // --- the writes of each routine ---------------------------------------------------

  predicate Distinct(s: seq<int>) {
    forall i, j :: 0 <= i < j < |s| ==> s[i] != s[j]
  }

  /** A transaction the log can hold: no block twice, only home blocks, and room for it. */
  predicate Loggable(l: Layout, d: DiskMap, lh: seq<int>) {
    && Distinct(lh)
    && |lh| < l.size
    && (forall i :: 0 <= i < |lh| ==> lh[i] in d && !InLog(l, lh[i]))
  }

  /** The disk holds every log block, and its header is one that `write_head` wrote. */
  ghost predicate GoodDisk(l: Layout, d: DiskMap) {
    && 0 < l.size
    && (forall b :: InLog(l, b) ==> b in d)
    && IsHead(d[l.start])
    && l.size <= |d[l.start]|
    && Loggable(l, d, ReadHead(d[l.start]))
  }

  function OnDisk(l: Layout, d: DiskMap): seq<int>
    requires GoodDisk(l, d)
  {
    ReadHead(d[l.start])
  }

  /** `write_log`: copy the first `n` logged blocks, as the cache has them, to the log. */
  function LogWrites(l: Layout, lh: seq<int>, view: DiskMap, n: nat): (ws: seq<Write>)
    requires n <= |lh|
    requires forall i :: 0 <= i < |lh| ==> lh[i] in view
    ensures |ws| == n
  {
    if n == 0 then []
    else LogWrites(l, lh, view, n - 1) + [Write(l.start + n, view[lh[n - 1]])]
  }

  /** `install_trans`: copy the first `n` log blocks to where they belong. */
  function InstallWrites(l: Layout, lh: seq<int>, d: DiskMap, n: nat): (ws: seq<Write>)
    requires n <= |lh| < l.size
    requires forall b :: InLog(l, b) ==> b in d
    ensures |ws| == n
  {
    if n == 0 then []
    else InstallWrites(l, lh, d, n - 1) + [Write(lh[n - 1], d[l.start + n])]
  }

  /** Install all of `lh` from the log blocks of `d`, then clear the header `head`. */
  function ClearWrites(l: Layout, lh: seq<int>, d: DiskMap, head: Block): (ws: seq<Write>)
    requires |lh| < l.size
    requires forall b :: InLog(l, b) ==> b in d
    ensures |ws| == |lh| + 1
  {
    InstallWrites(l, lh, d, |lh|) + [Write(l.start, HeadBlock(head, []))]
  }

  /** `recover_from_log`: install what the header names, then clear the header. */
  function RecoverWrites(l: Layout, d: DiskMap): seq<Write>
    requires GoodDisk(l, d)
  {
    ClearWrites(l, OnDisk(l, d), d, d[l.start])
  }

  /** The writes of a commit up to and including the one that commits. */
  function HeadWrites(l: Layout, d: DiskMap, lh: seq<int>, view: DiskMap): (ws: seq<Write>)
    requires GoodDisk(l, d) && Loggable(l, d, lh)
    requires forall i :: 0 <= i < |lh| ==> lh[i] in view
    ensures |ws| == |lh| + 1
  {
    LogWrites(l, lh, view, |lh|) + [Write(l.start, HeadBlock(d[l.start], lh))]
  }

  /** `commit`: nothing for an empty transaction, otherwise log, header, install, clear. */
  function CommitWrites(l: Layout, d: DiskMap, lh: seq<int>, view: DiskMap): seq<Write>
    requires GoodDisk(l, d) && Loggable(l, d, lh)
    requires forall i :: 0 <= i < |lh| ==> lh[i] in view
  {
    if lh == [] then []
    else
      var logged := LogWrites(l, lh, view, |lh|);
      ApplyKeys(d, logged);
      HeadWrites(l, d, lh, view) + ClearWrites(l, lh, Apply(d, logged), HeadBlock(d[l.start], lh))
  }

  // --- crashes ----------------------------------------------------------------------

  /** One boot that gets `k` writes into recovery and then crashes. */
  function CrashedRecovery(l: Layout, d: DiskMap, k: nat): DiskMap
    requires GoodDisk(l, d)
  {
    var ws := RecoverWrites(l, d);
    Apply(d, if k <= |ws| then ws[..k] else ws)
  }

  /** A whole recovery. */
  function Recovered(l: Layout, d: DiskMap): DiskMap
    requires GoodDisk(l, d)
  {
    Apply(d, RecoverWrites(l, d))
  }

  /** Boots that crash after `ks[0]`, `ks[1]`, ... writes, and then one that does not. */
  function AfterCrashes(l: Layout, d: DiskMap, ks: seq<nat>): DiskMap
    requires GoodDisk(l, d)
    decreases |ks|
  {
    if ks == [] then Recovered(l, d)
    else
      RecoveryStaysGood(l, d, ks[0]);
      AfterCrashes(l, CrashedRecovery(l, d, ks[0]), ks[1..])
  }

  // --- Apply ------------------------------------------------------------------------

  lemma {:induction false} ApplyAppend(d: DiskMap, a: seq<Write>, b: seq<Write>)
    ensures Apply(d, a + b) == Apply(Apply(d, a), b)
  {
    if b == [] {
      assert a + b == a;
    } else {
      var n := |b| - 1;
      assert (a + b)[..|a + b| - 1] == a + b[..n];
      ApplyAppend(d, a, b[..n]);
    }
  }

  lemma {:induction false} ApplyKeys(d: DiskMap, ws: seq<Write>)
    ensures d.Keys <= Apply(d, ws).Keys
    ensures (forall i :: 0 <= i < |ws| ==> ws[i].blockno in d) ==> Apply(d, ws).Keys == d.Keys
  {
    if ws != [] {
      var init := ws[..|ws| - 1];
      ApplyKeys(d, init);
      if forall i :: 0 <= i < |ws| ==> ws[i].blockno in d {
        assert forall i :: 0 <= i < |init| ==> init[i] == ws[i];
      }
    }
  }

  lemma {:induction false} ApplyMissing(d: DiskMap, ws: seq<Write>, b: int)
    requires b in d
    requires forall i :: 0 <= i < |ws| ==> ws[i].blockno != b
    ensures b in Apply(d, ws) && Apply(d, ws)[b] == d[b]
  {
    if ws != [] {
      var init := ws[..|ws| - 1];
      assert forall i :: 0 <= i < |init| ==> init[i] == ws[i];
      ApplyMissing(d, init, b);
    }
  }

  /** A write that no later one overwrites is what the disk ends up with. */
  lemma {:induction false} ApplyHit(d: DiskMap, ws: seq<Write>, k: nat)
    requires k < |ws|
    requires forall j :: k < j < |ws| ==> ws[j].blockno != ws[k].blockno
    ensures ws[k].blockno in Apply(d, ws) && Apply(d, ws)[ws[k].blockno] == ws[k].data
  {
    var init := ws[..|ws| - 1];
    if k < |init| {
      assert forall j :: 0 <= j < |init| ==> init[j] == ws[j];
      ApplyHit(d, init, k);
    }
  }

  // --- the shape of the write sequences ----------------------------------------------

  lemma {:induction false} LogWritesAt(l: Layout, lh: seq<int>, view: DiskMap, n: nat)
    requires n <= |lh|
    requires forall i :: 0 <= i < |lh| ==> lh[i] in view
    ensures forall i :: 0 <= i < n ==> LogWrites(l, lh, view, n)[i] == Write(l.start + 1 + i, view[lh[i]])
  {
    if n > 0 {
      LogWritesAt(l, lh, view, n - 1);
    }
  }

  lemma {:induction false} LogWritesPrefix(l: Layout, lh: seq<int>, view: DiskMap, n: nat, k: nat)
    requires k <= n <= |lh|
    requires forall i :: 0 <= i < |lh| ==> lh[i] in view
    ensures LogWrites(l, lh, view, n)[..k] == LogWrites(l, lh, view, k)
  {
    if k < n {
      LogWritesPrefix(l, lh, view, n - 1, k);
    }
  }

  lemma {:induction false} InstallWritesAt(l: Layout, lh: seq<int>, d: DiskMap, n: nat)
    requires n <= |lh| < l.size
    requires forall b :: InLog(l, b) ==> b in d
    ensures forall i :: 0 <= i < n ==> InstallWrites(l, lh, d, n)[i] == Write(lh[i], d[l.start + 1 + i])
  {
    if n > 0 {
      InstallWritesAt(l, lh, d, n - 1);
    }
  }

  // --- what recovery promises --------------------------------------------------------

  /** Recovery from `d` will leave `home` in the home blocks: the logged copy of each block
      that the header names, and the block as it is otherwise. */
  ghost predicate Promises(l: Layout, d: DiskMap, home: DiskMap) {
    && GoodDisk(l, d)
    && home.Keys == Home(l, d).Keys
    && var lh := OnDisk(l, d);
    && (forall i :: 0 <= i < |lh| ==> home[lh[i]] == d[l.start + 1 + i])
    && (forall b :: b in home && b !in lh ==> home[b] == d[b])
  }

  /** Every disk promises something. */
  lemma SomePromise(l: Layout, d: DiskMap)
    requires GoodDisk(l, d)
    ensures Promises(l, d, Home(l, Recovered(l, d)))
  {
    RecoverKeys(l, d, RecoverWrites(l, d));
    forall b | b in d && !InLog(l, b)
      ensures b !in OnDisk(l, d) ==> Recovered(l, d)[b] == d[b]
      ensures forall i :: 0 <= i < |OnDisk(l, d)| && OnDisk(l, d)[i] == b ==>
                Recovered(l, d)[b] == d[l.start + 1 + i]
    {
      InstalledBlock(l, OnDisk(l, d), d, HeadBlock(d[l.start], []), b);
    }
  }

  lemma RecoverKeys(l: Layout, d: DiskMap, ws: seq<Write>)
    requires GoodDisk(l, d)
    requires ws <= RecoverWrites(l, d)
    ensures Apply(d, ws).Keys == d.Keys
  {
    InstallWritesAt(l, OnDisk(l, d), d, |OnDisk(l, d)|);
    ApplyKeys(d, ws);
  }

  lemma RecoveryStaysGood(l: Layout, d: DiskMap, k: nat)
    requires GoodDisk(l, d)
    ensures GoodDisk(l, CrashedRecovery(l, d, k))
  {
    SomePromise(l, d);
    RecoveryKeepsPromise(l, d, Home(l, Recovered(l, d)), k);
  }

  /** However far recovery gets, the disk keeps the promise it started with. */
  lemma RecoveryKeepsPromise(l: Layout, d: DiskMap, home: DiskMap, k: nat)
    requires Promises(l, d, home)
    ensures Promises(l, CrashedRecovery(l, d, k), home)
  {
    var lh := OnDisk(l, d);
    var all := RecoverWrites(l, d);
    if k < |all| {
      InstallKeepsPromise(l, d, home, k);
    } else {
      assert all[..|all|] == all;
      RecoveryCompletes(l, d, home);
    }
  }

  /** Until the header is cleared, recovery touches only the blocks that the header names. */
  lemma PartialInstall(l: Layout, d: DiskMap, k: nat, b: int)
    requires GoodDisk(l, d) && k <= |OnDisk(l, d)|
    requires b in d && b !in OnDisk(l, d)
    ensures var d' := Apply(d, RecoverWrites(l, d)[..k]); b in d' && d'[b] == d[b]
  {
    InstallWritesAt(l, OnDisk(l, d), d, |OnDisk(l, d)|);
    ApplyMissing(d, RecoverWrites(l, d)[..k], b);
  }

  lemma InstallKeepsPromise(l: Layout, d: DiskMap, home: DiskMap, k: nat)
    requires Promises(l, d, home)
    requires k <= |OnDisk(l, d)|
    ensures Promises(l, Apply(d, RecoverWrites(l, d)[..k]), home)
  {
    var d' := Apply(d, RecoverWrites(l, d)[..k]);
    RecoverKeys(l, d, RecoverWrites(l, d)[..k]);
    forall b | b in d && b !in OnDisk(l, d) ensures d'[b] == d[b] {
      PartialInstall(l, d, k, b);
    }
    SamePromise(l, d, d', home);
  }

  lemma SamePromise(l: Layout, d: DiskMap, d': DiskMap, home: DiskMap)
    requires Promises(l, d, home)
    requires d'.Keys == d.Keys
    requires forall b :: b in d && b !in OnDisk(l, d) ==> d'[b] == d[b]
    ensures Promises(l, d', home)
  {
    var lh := OnDisk(l, d);
    assert forall b :: InLog(l, b) ==> b !in lh;
    assert d'[l.start] == d[l.start];
  }

  lemma RecoveredHead(l: Layout, d: DiskMap)
    requires GoodDisk(l, d)
    ensures Recovered(l, d).Keys == d.Keys
    ensures GoodDisk(l, Recovered(l, d)) && OnDisk(l, Recovered(l, d)) == []
  {
    var ws := RecoverWrites(l, d);
    RecoverKeys(l, d, ws);
    HeadRoundTrip(d[l.start], []);
  }

  lemma InstalledBlock(l: Layout, lh: seq<int>, d: DiskMap, head: Block, b: int)
    requires Distinct(lh) && |lh| < l.size
    requires forall b :: InLog(l, b) ==> b in d
    requires forall i :: 0 <= i < |lh| ==> !InLog(l, lh[i])
    requires b in d && !InLog(l, b)
    ensures var d' := Apply(d, InstallWrites(l, lh, d, |lh|) + [Write(l.start, head)]);
            && b in d'
            && (b !in lh ==> d'[b] == d[b])
            && (forall i :: 0 <= i < |lh| && lh[i] == b ==> d'[b] == d[l.start + 1 + i])
  {
    var ws := InstallWrites(l, lh, d, |lh|) + [Write(l.start, head)];
    InstallWritesAt(l, lh, d, |lh|);
    assert forall i :: 0 <= i < |lh| ==> ws[i] == Write(lh[i], d[l.start + 1 + i]);
    if i :| 0 <= i < |lh| && lh[i] == b {
      ApplyHit(d, ws, i);
    } else {
      ApplyMissing(d, ws, b);
    }
  }

  lemma RecoveredHome(l: Layout, d: DiskMap, home: DiskMap, b: int)
    requires Promises(l, d, home) && b in home
    ensures b in Recovered(l, d) && Recovered(l, d)[b] == home[b]
  {
    InstalledBlock(l, OnDisk(l, d), d, HeadBlock(d[l.start], []), b);
  }

  /** A recovery that runs to the end delivers the promise and clears the header. */
  lemma RecoveryCompletes(l: Layout, d: DiskMap, home: DiskMap)
    requires Promises(l, d, home)
    ensures Promises(l, Recovered(l, d), home)
    ensures Home(l, Recovered(l, d)) == home
    ensures OnDisk(l, Recovered(l, d)) == []
  {
    RecoveredHead(l, d);
    forall b | b in home ensures Home(l, Recovered(l, d))[b] == home[b] {
      RecoveredHome(l, d, home, b);
    }
  }

  /** Any number of crashes during recovery, then one recovery that completes. */
  lemma {:induction false} CrashesDeliverPromise(l: Layout, d: DiskMap, home: DiskMap, ks: seq<nat>)
    requires Promises(l, d, home)
    ensures GoodDisk(l, AfterCrashes(l, d, ks))
    ensures Home(l, AfterCrashes(l, d, ks)) == home
    ensures OnDisk(l, AfterCrashes(l, d, ks)) == []
    decreases |ks|
  {
    if ks == [] {
      RecoveryCompletes(l, d, home);
    } else {
      RecoveryKeepsPromise(l, d, home, ks[0]);
      CrashesDeliverPromise(l, CrashedRecovery(l, d, ks[0]), home, ks[1..]);
    }
  }

  // --- a crash during commit ----------------------------------------------------------

  /** What the transaction does to the home blocks, all at once. */
  function Installed(home: DiskMap, lh: seq<int>, view: DiskMap): DiskMap
    requires forall i :: 0 <= i < |lh| ==> lh[i] in view
  {
    home + map b | b in lh :: view[b]
  }

  /** The disk after the first `k` writes of a commit. */
  function DuringCommit(l: Layout, d: DiskMap, lh: seq<int>, view: DiskMap, k: nat): DiskMap
    requires GoodDisk(l, d) && Loggable(l, d, lh)
    requires forall i :: 0 <= i < |lh| ==> lh[i] in view
    requires k <= |CommitWrites(l, d, lh, view)|
  {
    Apply(d, CommitWrites(l, d, lh, view)[..k])
  }

  /** Writes to the body of an empty log change nothing that can be seen. */
  lemma BodyWrites(l: Layout, d: DiskMap, ws: seq<Write>)
    requires GoodDisk(l, d) && OnDisk(l, d) == []
    requires forall i :: 0 <= i < |ws| ==> InLog(l, ws[i].blockno) && ws[i].blockno != l.start
    ensures Apply(d, ws).Keys == d.Keys
    ensures Apply(d, ws)[l.start] == d[l.start]
    ensures Promises(l, Apply(d, ws), Home(l, d))
  {
    ApplyKeys(d, ws);
    ApplyMissing(d, ws, l.start);
    forall b | b in d && !InLog(l, b) ensures Apply(d, ws)[b] == d[b] {
      ApplyMissing(d, ws, b);
    }
  }

  /** Before the header is written, nothing of the transaction can be seen. */
  lemma BeforeHead(l: Layout, d: DiskMap, lh: seq<int>, view: DiskMap, k: nat)
    requires GoodDisk(l, d) && Loggable(l, d, lh) && OnDisk(l, d) == []
    requires forall i :: 0 <= i < |lh| ==> lh[i] in view
    requires k <= |lh|
    ensures Promises(l, Apply(d, LogWrites(l, lh, view, k)), Home(l, d))
    ensures Apply(d, LogWrites(l, lh, view, k)).Keys == d.Keys
    ensures Apply(d, LogWrites(l, lh, view, k))[l.start] == d[l.start]
  {
    LogWritesAt(l, lh, view, k);
    BodyWrites(l, d, LogWrites(l, lh, view, k));
  }

  lemma HeadedDisk(l: Layout, d: DiskMap, lh: seq<int>, view: DiskMap)
    requires GoodDisk(l, d) && Loggable(l, d, lh) && OnDisk(l, d) == []
    requires forall i :: 0 <= i < |lh| ==> lh[i] in view
    ensures var d' := Apply(d, HeadWrites(l, d, lh, view));
            && Apply(d, LogWrites(l, lh, view, |lh|)).Keys == d.Keys
            && d' == Apply(d, LogWrites(l, lh, view, |lh|))[l.start := HeadBlock(d[l.start], lh)]
            && d'.Keys == d.Keys
            && GoodDisk(l, d') && OnDisk(l, d') == lh
  {
    var ws := HeadWrites(l, d, lh, view);
    BeforeHead(l, d, lh, view, |lh|);
    assert ws[..|ws| - 1] == LogWrites(l, lh, view, |lh|);
    HeadRoundTrip(d[l.start], lh);
  }

  /** Once the header is written, the whole transaction is promised. */
  lemma AfterHead(l: Layout, d: DiskMap, lh: seq<int>, view: DiskMap)
    requires GoodDisk(l, d) && Loggable(l, d, lh) && OnDisk(l, d) == []
    requires forall i :: 0 <= i < |lh| ==> lh[i] in view
    ensures Promises(l, Apply(d, HeadWrites(l, d, lh, view)), Installed(Home(l, d), lh, view))
  {
    HeadedDisk(l, d, lh, view);
    var d' := Apply(d, HeadWrites(l, d, lh, view));
    forall b | b in d && !InLog(l, b) ensures d'[b] == d[b] {
      BeforeHead(l, d, lh, view, |lh|);
    }
    forall i | 0 <= i < |lh| ensures d'[l.start + 1 + i] == view[lh[i]] {
      LoggedCopy(l, d, lh, view, i);
    }
    HeadPromise(l, d, d', lh, view);
  }

  lemma HeadPromise(l: Layout, d: DiskMap, d': DiskMap, lh: seq<int>, view: DiskMap)
    requires GoodDisk(l, d') && OnDisk(l, d') == lh
    requires d'.Keys == d.Keys
    requires forall b :: b in d && !InLog(l, b) ==> d'[b] == d[b]
    requires forall i :: 0 <= i < |lh| ==> lh[i] in view
    requires forall i :: 0 <= i < |lh| ==> d'[l.start + 1 + i] == view[lh[i]]
    ensures Promises(l, d', Installed(Home(l, d), lh, view))
  {
    assert Installed(Home(l, d), lh, view).Keys == Home(l, d').Keys;
  }

  lemma LoggedCopy(l: Layout, d: DiskMap, lh: seq<int>, view: DiskMap, i: nat)
    requires i < |lh|
    requires forall j :: 0 <= j < |lh| ==> lh[j] in view
    ensures var d' := Apply(d, LogWrites(l, lh, view, |lh|));
            l.start + 1 + i in d' && d'[l.start + 1 + i] == view[lh[i]]
  {
    LogWritesAt(l, lh, view, |lh|);
    ApplyHit(d, LogWrites(l, lh, view, |lh|), i);
  }

  /** After its header, a commit writes exactly what recovery would write. */
  lemma CommitEndsAsRecovery(l: Layout, d: DiskMap, lh: seq<int>, view: DiskMap)
    requires GoodDisk(l, d) && Loggable(l, d, lh) && OnDisk(l, d) == [] && lh != []
    requires forall i :: 0 <= i < |lh| ==> lh[i] in view
    ensures var ws := HeadWrites(l, d, lh, view);
            GoodDisk(l, Apply(d, ws)) &&
            CommitWrites(l, d, lh, view) == ws + RecoverWrites(l, Apply(d, ws))
  {
    HeadedDisk(l, d, lh, view);
    var d1 := Apply(d, LogWrites(l, lh, view, |lh|));
    var d2 := Apply(d, HeadWrites(l, d, lh, view));
    SameInstall(l, lh, d1, d2);
  }

  /** Installing reads only the logged copies, not the header. */
  lemma SameInstall(l: Layout, lh: seq<int>, d1: DiskMap, d2: DiskMap)
    requires |lh| < l.size
    requires forall b :: InLog(l, b) ==> b in d1 && b in d2
    requires forall b :: InLog(l, b) && b != l.start ==> d1[b] == d2[b]
    ensures InstallWrites(l, lh, d1, |lh|) == InstallWrites(l, lh, d2, |lh|)
  {
    InstallWritesAt(l, lh, d1, |lh|);
    InstallWritesAt(l, lh, d2, |lh|);
  }

  /** Wherever in the commit the machine stops, the disk promises all of the transaction if
      the first header write is among the writes that were done, and none of it otherwise. */
  lemma CommitPromise(l: Layout, d: DiskMap, lh: seq<int>, view: DiskMap, k: nat)
    requires GoodDisk(l, d) && Loggable(l, d, lh) && OnDisk(l, d) == []
    requires forall i :: 0 <= i < |lh| ==> lh[i] in view
    requires k <= |CommitWrites(l, d, lh, view)|
    ensures Promises(l, DuringCommit(l, d, lh, view, k),
                     if k <= |lh| then Home(l, d) else Installed(Home(l, d), lh, view))
  {
    if k <= |lh| {
      BeforeHead(l, d, lh, view, k);
      LogWritesPrefix(l, lh, view, |lh|, k);
      assert CommitWrites(l, d, lh, view)[..k] == LogWrites(l, lh, view, |lh|)[..k];
    } else {
      CommitTail(l, d, lh, view, k);
    }
  }

  lemma CommitTail(l: Layout, d: DiskMap, lh: seq<int>, view: DiskMap, k: nat)
    requires GoodDisk(l, d) && Loggable(l, d, lh) && OnDisk(l, d) == []
    requires forall i :: 0 <= i < |lh| ==> lh[i] in view
    requires |lh| < k <= |CommitWrites(l, d, lh, view)|
    ensures Promises(l, DuringCommit(l, d, lh, view, k), Installed(Home(l, d), lh, view))
  {
    CommitEndsAsRecovery(l, d, lh, view);
    AfterHead(l, d, lh, view);
    RecoverySuffix(l, d, HeadWrites(l, d, lh, view), CommitWrites(l, d, lh, view),
                   Installed(Home(l, d), lh, view), k);
  }

  lemma RecoverySuffix(l: Layout, d: DiskMap, ws: seq<Write>, all: seq<Write>, home: DiskMap, k: nat)
    requires Promises(l, Apply(d, ws), home)
    requires all == ws + RecoverWrites(l, Apply(d, ws))
    requires |ws| <= k <= |all|
    ensures Promises(l, Apply(d, all[..k]), home)
  {
    var rest := RecoverWrites(l, Apply(d, ws));
    var j := k - |ws|;
    assert all[..k] == ws + rest[..j];
    ApplyAppend(d, ws, rest[..j]);
    RecoveryKeepsPromise(l, Apply(d, ws), home, j);
  }

  /** Atomicity of a transaction under crashes.  The commit stops after any `k` of its block
      writes; boots crash after `ks[0]`, `ks[1]`, ... writes of recovery; then one recovery
      completes.  The home blocks hold all of the transaction exactly when the header was
      written, that is, when more than `|lh|` writes were done, and none of it otherwise. */
  lemma CrashAtomic(l: Layout, d: DiskMap, lh: seq<int>, view: DiskMap, k: nat, ks: seq<nat>)
    requires GoodDisk(l, d) && Loggable(l, d, lh) && OnDisk(l, d) == []
    requires forall i :: 0 <= i < |lh| ==> lh[i] in view
    requires k <= |CommitWrites(l, d, lh, view)|
    ensures GoodDisk(l, DuringCommit(l, d, lh, view, k))
    ensures var r := AfterCrashes(l, DuringCommit(l, d, lh, view, k), ks);
            && Home(l, r) == (if k <= |lh| then Home(l, d) else Installed(Home(l, d), lh, view))
            && GoodDisk(l, r) && OnDisk(l, r) == []
  {
    CommitPromise(l, d, lh, view, k);
    CrashesDeliverPromise(l, DuringCommit(l, d, lh, view, k),
                          if k <= |lh| then Home(l, d) else Installed(Home(l, d), lh, view), ks);
  }

  /** A commit that runs to the end has installed everything and cleared the header. */
  lemma CommitCompletes(l: Layout, d: DiskMap, lh: seq<int>, view: DiskMap)
    requires GoodDisk(l, d) && Loggable(l, d, lh) && OnDisk(l, d) == []
    requires forall i :: 0 <= i < |lh| ==> lh[i] in view
    ensures var d' := Apply(d, CommitWrites(l, d, lh, view));
            && GoodDisk(l, d') && OnDisk(l, d') == []
            && Home(l, d') == Installed(Home(l, d), lh, view)
  {
    if lh != [] {
      var ws := HeadWrites(l, d, lh, view);
      CommitEndsAsRecovery(l, d, lh, view);
      AfterHead(l, d, lh, view);
      ApplyAppend(d, ws, RecoverWrites(l, Apply(d, ws)));
      RecoveryCompletes(l, Apply(d, ws), Installed(Home(l, d), lh, view));
    } else {
      assert Installed(Home(l, d), lh, view) == Home(l, d);
    }
  }
}
