/** What is on disk in every run of `LogRun`, and what a crash leaves behind. */
module LogSafety {
  import opened LogDisk
  import opened LogPolicy
  import opened LogCode
  import opened LogRun

  // --- the steps of a commit add up to the commit ------------------------------------------

  /** The store after `k` disk writes of a commit that began with `st`. */
  function CommitPrefix(l: Layout, lh: seq<int>, st: Store, k: nat): Store
    requires k <= CommitLength(lh)
  {
    if k == 0 then st else CommitStep(l, lh, CommitPrefix(l, lh, st, k - 1), k - 1)
  }

  lemma {:induction false} PrefixLogs(l: Layout, lh: seq<int>, st: Store, k: nat)
    requires k <= |lh|
    ensures CommitPrefix(l, lh, st, k) == LogLoop(l, lh, st, k)
  {
    if k > 0 {
      PrefixLogs(l, lh, st, k - 1);
    }
  }

  lemma {:induction false} PrefixInstalls(l: Layout, lh: seq<int>, st: Store, j: nat)
    requires lh != [] && j <= |lh|
    ensures CommitPrefix(l, lh, st, |lh| + 1 + j)
         == InstallLoop(l, lh, Headed(l, lh, LogLoop(l, lh, st, |lh|)), false, j)
  {
    if j == 0 {
      PrefixLogs(l, lh, st, |lh|);
    } else {
      PrefixInstalls(l, lh, st, j - 1);
    }
  }

  /** All its steps together are what the method `Commit` does. */
  lemma PrefixCommits(l: Layout, lh: seq<int>, st: Store)
    ensures CommitPrefix(l, lh, st, CommitLength(lh)) == Committed(l, lh, st)
  {
    if lh != [] {
      PrefixInstalls(l, lh, st, |lh|);
    }
  }

  function StepWrite(l: Layout, lh: seq<int>, st: Store, k: nat): Write
    requires k < CommitLength(lh)
  {
    if k < |lh| then Write(l.start + k + 1, st.Bread(lh[k]))
    else if k == |lh| then Write(l.start, HeadBlock(st.Bread(l.start), lh))
    else if k <= 2 * |lh| then Write(lh[k - |lh| - 1], st.Bread(l.start + k - |lh|))
    else Write(l.start, HeadBlock(st.Bread(l.start), []))
  }

  lemma StepExtends(l: Layout, lh: seq<int>, st0: Store, st: Store, k: nat, ws: seq<Write>) returns (w: Write)
    requires k < CommitLength(lh) && Extends(st0, st, ws)
    ensures Extends(st0, CommitStep(l, lh, st, k), ws + [w])
  {
    w := StepWrite(l, lh, st, k);
    BwriteExtends(st0, st, ws, w.blockno, w.data);
    assert CommitStep(l, lh, st, k).disk == st.Bwrite(w.blockno, w.data).disk;
  }

  /** Every step is one disk write. */
  lemma {:induction false} PrefixExtends(l: Layout, lh: seq<int>, st: Store, k: nat) returns (ws: seq<Write>)
    requires k <= CommitLength(lh)
    ensures Extends(st, CommitPrefix(l, lh, st, k), ws) && |ws| == k
  {
    if k == 0 {
      ws := [];
    } else {
      ws := PrefixExtends(l, lh, st, k - 1);
      var w := StepExtends(l, lh, st, CommitPrefix(l, lh, st, k - 1), k - 1, ws);
      ws := ws + [w];
    }
  }

  lemma {:induction false} PrefixTrace(l: Layout, lh: seq<int>, st: Store, k: nat, n: nat)
    requires k <= n <= CommitLength(lh)
    ensures CommitPrefix(l, lh, st, k).trace <= CommitPrefix(l, lh, st, n).trace
    decreases n
  {
    if k < n {
      PrefixTrace(l, lh, st, k, n - 1);
      var s := CommitPrefix(l, lh, st, n - 1);
      var w := StepExtends(l, lh, s, s, n - 1, []);
    }
  }

  lemma CancelPrefix(t: seq<Write>, ws: seq<Write>, all: seq<Write>)
    requires t + ws <= t + all
    ensures |ws| <= |all| && ws == all[..|ws|]
  {
    forall i | 0 <= i < |ws| ensures ws[i] == all[i] {
      assert (t + ws)[|t| + i] == (t + all)[|t| + i];
    }
  }

  lemma CommitWritesLength(l: Layout, d: DiskMap, lh: seq<int>, view: DiskMap)
    requires GoodDisk(l, d) && Loggable(l, d, lh)
    requires forall i :: 0 <= i < |lh| ==> lh[i] in view
    ensures |CommitWrites(l, d, lh, view)| == CommitLength(lh)
  {
  }

  /** After `k` steps the disk is where `CommitWrites` is after `k` writes. */
  lemma PrefixDisk(l: Layout, lh: seq<int>, st: Store, k: nat)
    requires Ready(l, lh, st) && k <= CommitLength(lh)
    ensures |CommitWrites(l, st.disk, lh, st.disk + st.dirty)| == CommitLength(lh)
    ensures CommitPrefix(l, lh, st, k).disk == DuringCommit(l, st.disk, lh, st.disk + st.dirty, k)
  {
    CommitWritesLength(l, st.disk, lh, st.disk + st.dirty);
    CommittedWrites(l, lh, st);
    PrefixCommits(l, lh, st);
    PrefixTrace(l, lh, st, k, CommitLength(lh));
    var ws := PrefixExtends(l, lh, st, k);
    CancelPrefix(st.trace, ws, CommitWrites(l, st.disk, lh, st.disk + st.dirty));
  }

  // --- invariant: the disk and the cache ------------------------------------------------------

  /** The home blocks as the file system code sees them, through the cache. */
  function Seen(l: Layout, st: Store): DiskMap {
    Home(l, st.disk + st.dirty)
  }

  /** What the current group has done so far. */
  function CurrentEffects(s: State): seq<Effect> {
    CurrentGroup(s).effects
  }

  /** The store that holds no commit in progress: the log on disk is empty, the home blocks
      on disk are the committed groups, and the cache adds what the current group did. */
  ghost predicate StoreOk(c: Config, s: State, st: Store, home: DiskMap) {
    && Ready(c.layout, s.lh, st) && OnDisk(c.layout, st.disk) == []
    && st.dirty.Keys <= st.disk.Keys
    && Home(c.layout, st.disk) == PerformGroups(home, s.groups)
    && Seen(c.layout, st) == Perform(Home(c.layout, st.disk), CurrentEffects(s))
    && st.pins == First(s.lh, |s.lh|)
  }

  /** A dirty buffer is pinned by the log or held by an operation that will log it. */
  ghost predicate DirtyOk(s: State, st: Store) {
    forall b :: b in st.dirty ==>
      b in s.lh || exists p :: 0 <= p < |s.ops| && s.ops[p].Active? && b in s.ops[p].unlogged
  }

  /** An operation changes blocks of the disk outside the log. */
  ghost predicate HeldOk(c: Config, s: State) {
    forall p :: 0 <= p < |s.ops| && s.ops[p].Active? ==>
      forall b :: b in s.ops[p].unlogged ==> b in s.store.disk && !InLog(c.layout, b)
  }

  ghost predicate DataInv(c: Config, s: State, home: DiskMap) {
    if s.committing then
      && s.progress <= CommitLength(s.lh)
      && StoreOk(c, s, s.began, home)
      && DirtyOk(s, s.began)
      && s.store == CommitPrefix(c.layout, s.lh, s.began, s.progress)
    else
      && StoreOk(c, s, s.store, home)
      && DirtyOk(s, s.store)
      && HeldOk(c, s)
  }

  lemma PerformAppend(home: DiskMap, es: seq<Effect>, e: Effect)
    ensures Perform(home, es + [e]) == Perform(home, es)[e.w.blockno := e.w.data]
  {
    assert (es + [e])[..|es|] == es;
  }

  lemma PerformGroupsAppend(home: DiskMap, gs: seq<Group>, g: Group)
    ensures PerformGroups(home, gs + [g]) == Perform(PerformGroups(home, gs), g.effects)
  {
    assert (gs + [g])[..|gs|] == gs;
  }

  /** Installing a transaction makes the home blocks what the file system saw. */
  lemma InstalledIsSeen(l: Layout, lh: seq<int>, st: Store)
    requires Ready(l, lh, st) && st.dirty.Keys <= st.disk.Keys
    requires forall b :: b in st.dirty ==> b in lh
    ensures Installed(Home(l, st.disk), lh, st.disk + st.dirty) == Seen(l, st)
  {
  }

  /** A store with nothing in the cache and an empty log holds exactly the committed groups. */
  lemma CleanStoreOk(c: Config, s: State, home: DiskMap)
    requires GoodDisk(c.layout, s.store.disk) && OnDisk(c.layout, s.store.disk) == []
    requires Home(c.layout, s.store.disk) == PerformGroups(home, s.groups)
    requires s.store.dirty == map[] && s.store.pins == {} && s.lh == [] && !s.committing
    requires s.first == |s.ops| && forall i :: 0 <= i < |s.performed| ==> s.performed[i].op < |s.ops|
    requires forall p :: 0 <= p < |s.ops| ==> !s.ops[p].Active?
    ensures DataInv(c, s, home)
  {
    BetweenNone(s.performed, |s.ops|);
    assert s.store.disk + s.store.dirty == s.store.disk;
  }

  /** Only the header, the history and the groups of the state matter to `StoreOk`. */
  lemma SameStoreOk(c: Config, s: State, s': State, st: Store, home: DiskMap)
    requires StoreOk(c, s, st, home)
    requires s'.lh == s.lh && s'.groups == s.groups && CurrentEffects(s') == CurrentEffects(s)
    ensures StoreOk(c, s', st, home)
  {
  }

  lemma DataBeginOp(c: Config, s: State, home: DiskMap)
    requires HistInv(s) && DataInv(c, s, home) && Enabled(c, s, BeginOp)
    ensures DataInv(c, Do(c, s, BeginOp), home)
  {
    BetweenBound(s.performed, s.first, |s.ops|, |s.ops| + 1);
    var s' := Do(c, s, BeginOp);
    SameStoreOk(c, s, s', s.store, home);
    forall x | x in s.store.dirty && x !in s'.lh
      ensures exists q :: 0 <= q < |s'.ops| && s'.ops[q].Active? && x in s'.ops[q].unlogged
    {
      var q :| 0 <= q < |s.ops| && s.ops[q].Active? && x in s.ops[q].unlogged;
      assert s'.ops[q] == s.ops[q];
    }
  }

  lemma DataModify(c: Config, s: State, home: DiskMap, p: nat, b: int, data: Block)
    requires OpsInv(c, s) && DataInv(c, s, home) && Enabled(c, s, Modify(p, b, data))
    ensures DataInv(c, Do(c, s, Modify(p, b, data)), home)
  {
    CommitExcludesOps(c, s, p);
    var s' := Do(c, s, Modify(p, b, data));
    var e := Effect(p, Write(b, data));
    BetweenAppend(s.performed, e, s.first, |s.ops|);
    ModifySeen(c.layout, s.store, b, data);
    ModifyStoreOk(c, s, s', home, e);
    DataModifyDirty(c, s, p, b, data);
  }

  lemma ModifySeen(l: Layout, st: Store, b: int, data: Block)
    requires b in st.disk && !InLog(l, b)
    ensures Seen(l, st.(dirty := st.dirty[b := data])) == Seen(l, st)[b := data]
  {
  }

  lemma ModifyStoreOk(c: Config, s: State, s': State, home: DiskMap, e: Effect)
    requires StoreOk(c, s, s.store, home) && e.w.blockno in s.store.disk && !InLog(c.layout, e.w.blockno)
    requires s'.lh == s.lh && s'.groups == s.groups
    requires s'.store == s.store.(dirty := s.store.dirty[e.w.blockno := e.w.data])
    requires CurrentEffects(s') == CurrentEffects(s) + [e]
    requires Seen(c.layout, s'.store) == Seen(c.layout, s.store)[e.w.blockno := e.w.data]
    ensures StoreOk(c, s', s'.store, home)
  {
    PerformAppend(Home(c.layout, s.store.disk), CurrentEffects(s), e);
  }

  lemma DataModifyDirty(c: Config, s: State, p: nat, b: int, data: Block)
    requires DirtyOk(s, s.store) && Enabled(c, s, Modify(p, b, data))
    ensures DirtyOk(Do(c, s, Modify(p, b, data)), Do(c, s, Modify(p, b, data)).store)
  {
    var s' := Do(c, s, Modify(p, b, data));
    forall x | x in s'.store.dirty
      ensures x in s'.lh || exists q :: 0 <= q < |s'.ops| && s'.ops[q].Active? && x in s'.ops[q].unlogged
    {
      if x == b {
        assert x in s'.ops[p].unlogged;
      } else if x !in s.lh {
        var q :| 0 <= q < |s.ops| && s.ops[q].Active? && x in s.ops[q].unlogged;
        assert x in s'.ops[q].unlogged;
      }
    }
  }

  lemma LogWriteLoggable(c: Config, s: State, p: nat, b: int)
    requires Loggable(c.layout, s.store.disk, s.lh) && HeldOk(c, s) && Enabled(c, s, LogWrite(p, b))
    ensures Loggable(c.layout, s.store.disk, Absorb(s.lh, b))
    ensures First(Absorb(s.lh, b), |Absorb(s.lh, b)|) == First(s.lh, |s.lh|) + {b}
  {
    FirstAll(s.lh);
    FirstAll(Absorb(s.lh, b));
    var lh' := Absorb(s.lh, b);
    forall x ensures x in First(lh', |lh'|) <==> x in First(s.lh, |s.lh|) + {b} {
    }
  }

  lemma LogWriteStoreOk(c: Config, s: State, home: DiskMap, p: nat, b: int)
    requires StoreOk(c, s, s.store, home) && HeldOk(c, s) && Enabled(c, s, LogWrite(p, b))
    ensures StoreOk(c, Do(c, s, LogWrite(p, b)), Do(c, s, LogWrite(p, b)).store, home)
  {
    var s' := Do(c, s, LogWrite(p, b));
    LogWriteLoggable(c, s, p, b);
    FirstAll(s.lh);
    assert CurrentEffects(s') == CurrentEffects(s);
    assert s'.store.disk == s.store.disk && s'.store.dirty == s.store.dirty;
    assert s'.store.pins == First(s.lh, |s.lh|) + {b};
  }

  lemma LogWriteDirtyOk(c: Config, s: State, p: nat, b: int)
    requires DirtyOk(s, s.store) && Enabled(c, s, LogWrite(p, b))
    ensures DirtyOk(Do(c, s, LogWrite(p, b)), Do(c, s, LogWrite(p, b)).store)
  {
    var s' := Do(c, s, LogWrite(p, b));
    forall x | x in s'.store.dirty && x !in s'.lh
      ensures exists q :: 0 <= q < |s'.ops| && s'.ops[q].Active? && x in s'.ops[q].unlogged
    {
      var q :| 0 <= q < |s.ops| && s.ops[q].Active? && x in s.ops[q].unlogged;
      assert x in s'.ops[q].unlogged;
    }
  }

  lemma DataLogWrite(c: Config, s: State, home: DiskMap, p: nat, b: int)
    requires OpsInv(c, s) && DataInv(c, s, home) && Enabled(c, s, LogWrite(p, b))
    ensures DataInv(c, Do(c, s, LogWrite(p, b)), home)
  {
    CommitExcludesOps(c, s, p);
    LogWriteStoreOk(c, s, home, p, b);
    LogWriteDirtyOk(c, s, p, b);
  }

  lemma DataEndOp(c: Config, s: State, home: DiskMap, p: nat)
    requires DataInv(c, s, home) && Enabled(c, s, EndOp(p))
    ensures DataInv(c, Do(c, s, EndOp(p)), home)
  {
    var s' := Do(c, s, EndOp(p));
    forall x | x in s.store.dirty
      ensures x in s'.lh || exists q :: 0 <= q < |s'.ops| && s'.ops[q].Active? && x in s'.ops[q].unlogged
    {
      if x !in s.lh {
        var q :| 0 <= q < |s.ops| && s.ops[q].Active? && x in s.ops[q].unlogged;
        assert s'.ops[q] == s.ops[q];
      }
    }
  }

  /** When nobody is active, every dirty buffer belongs to the transaction. */
  lemma AllLogged(c: Config, s: State, st: Store)
    requires OpsInv(c, s) && s.outstanding == 0 && DirtyOk(s, st)
    ensures forall b :: b in st.dirty ==> b in s.lh
  {
    NobodyActive(c, s);
  }

  lemma DataCommitDone(c: Config, s: State, home: DiskMap)
    requires OpsInv(c, s) && HistInv(s) && DataInv(c, s, home) && Enabled(c, s, CommitDone)
    ensures DataInv(c, Do(c, s, CommitDone), home)
  {
    var l, st := c.layout, s.began;
    PrefixCommits(l, s.lh, st);
    CommittedWrites(l, s.lh, st);
    CommitCompletes(l, st.disk, s.lh, st.disk + st.dirty);
    AllLogged(c, s, st);
    InstalledIsSeen(l, s.lh, st);
    CommittedUnpins(l, s.lh, st);
    NothingLeft(s.lh, st);
    PerformGroupsAppend(home, s.groups, CurrentGroup(s));
    NobodyActive(c, s);
    CleanStoreOk(c, Do(c, s, CommitDone), home);
  }

  lemma NothingLeft(lh: seq<int>, st: Store)
    requires forall b :: b in st.dirty ==> b in lh
    ensures st.dirty - First(lh, |lh|) == map[]
  {
    FirstAll(lh);
    var rest := st.dirty - First(lh, |lh|);
    forall b ensures b !in rest {
      assert b in rest ==> b in st.dirty && b !in lh;
    }
  }

  lemma FirstAll(lh: seq<int>)
    ensures forall b :: b in First(lh, |lh|) <==> b in lh
  {
    forall b | b in lh ensures b in First(lh, |lh|) {
      var i :| 0 <= i < |lh| && lh[i] == b;
    }
  }

  // --- crashes -----------------------------------------------------------------------------------

  /** The groups that recovery will bring back if the machine stops now. */
  function Durable(s: State): seq<Group> {
    if HeaderWritten(s) then s.groups + [CurrentGroup(s)] else s.groups
  }

  lemma DurablePromise(c: Config, s: State, home: DiskMap)
    requires OpsInv(c, s) && DataInv(c, s, home)
    ensures Promises(c.layout, s.store.disk, PerformGroups(home, Durable(s)))
  {
    if s.committing {
      var l, st := c.layout, s.began;
      PrefixDisk(l, s.lh, st, s.progress);
      CommitPromise(l, st.disk, s.lh, st.disk + st.dirty, s.progress);
      AllLogged(c, s, st);
      InstalledIsSeen(l, s.lh, st);
      PerformGroupsAppend(home, s.groups, CurrentGroup(s));
    }
  }

  /** In every state that satisfies the invariants, a crash followed by any number of
      interrupted recoveries and one complete recovery yields exactly the durable groups. */
  lemma CrashYieldsGroups(c: Config, s: State, home: DiskMap, ks: seq<nat>)
    requires OpsInv(c, s) && DataInv(c, s, home)
    ensures GoodDisk(c.layout, s.store.disk)
    ensures var d := AfterCrashes(c.layout, s.store.disk, ks);
            && GoodDisk(c.layout, d) && OnDisk(c.layout, d) == []
            && Home(c.layout, d) == PerformGroups(home, Durable(s))
  {
    DurablePromise(c, s, home);
    CrashesDeliverPromise(c.layout, s.store.disk, PerformGroups(home, Durable(s)), ks);
  }

  lemma DataCrash(c: Config, s: State, home: DiskMap, ks: seq<nat>)
    requires OpsInv(c, s) && HistInv(s) && DataInv(c, s, home) && Enabled(c, s, Crash(ks))
    ensures DataInv(c, Do(c, s, Crash(ks)), home)
  {
    CrashYieldsGroups(c, s, home, ks);
    CleanStoreOk(c, Do(c, s, Crash(ks)), home);
  }

  lemma DataDiskWrite(c: Config, s: State, home: DiskMap)
    requires DataInv(c, s, home) && Enabled(c, s, DiskWrite)
    ensures DataInv(c, Do(c, s, DiskWrite), home)
  {
    SameStoreOk(c, s, Do(c, s, DiskWrite), s.began, home);
  }

  lemma DataInvStep(c: Config, s: State, home: DiskMap, step: Step)
    requires OpsInv(c, s) && HistInv(s) && DataInv(c, s, home) && Enabled(c, s, step)
    ensures DataInv(c, Do(c, s, step), home)
  {
    match step
    case BeginOp => DataBeginOp(c, s, home);
    case Modify(p, b, data) => DataModify(c, s, home, p, b, data);
    case LogWrite(p, b) => DataLogWrite(c, s, home, p, b);
    case EndOp(p) => DataEndOp(c, s, home, p);
    case DiskWrite => DataDiskWrite(c, s, home);
    case CommitDone => DataCommitDone(c, s, home);
    case Crash(ks) => DataCrash(c, s, home, ks);
  }

  // --- every run -----------------------------------------------------------------------------------

  ghost predicate Inv(c: Config, s: State, home: DiskMap) {
    && 0 < c.layout.size
    && OpsInv(c, s) && ListInv(c, s) && HistInv(s) && DataInv(c, s, home)
  }

  lemma {:induction false} InvHolds(c: Config, s: State, home: DiskMap, steps: seq<Step>)
    requires Initial(c, s, home) && CanRun(c, s, steps)
    ensures Inv(c, After(c, s, steps), home)
    decreases |steps|
  {
    if steps == [] {
      CleanStoreOk(c, s, home);
    } else {
      var init := steps[..|steps| - 1];
      var step := steps[|steps| - 1];
      InvHolds(c, s, home, init);
      var t := After(c, s, init);
      OpsInvStep(c, t, step);
      ListInvStep(c, t, step);
      HistInvStep(c, t, step);
      DataInvStep(c, t, home, step);
    }
  }

  /** Crash safety of every run.  Whatever operations begin, log and end, in any interleaving,
      with any crashes on the way: if the machine stops after `steps`, recovery produces the
      effects of the durable groups in order, where a group is a block of consecutive
      operations, all of which ended, with everything that they did.  No operation is there
      in part. */
  lemma RunCrashSafe(c: Config, s: State, home: DiskMap, steps: seq<Step>, ks: seq<nat>)
    requires Initial(c, s, home) && CanRun(c, s, steps)
    ensures var t := After(c, s, steps);
            var gs := Durable(t);
            && GoodDisk(c.layout, t.store.disk)
            && Home(c.layout, AfterCrashes(c.layout, t.store.disk, ks)) == PerformGroups(home, gs)
            && (forall i :: 0 <= i < |gs| ==> GroupOk(t.performed, t.ops, gs[i]))
            && (forall i, j :: 0 <= i < j < |gs| ==> gs[i].next <= gs[j].first)
  {
    InvHolds(c, s, home, steps);
    var t := After(c, s, steps);
    CrashYieldsGroups(c, t, home, ks);
    DurableGroups(c, t);
  }

  lemma DurableGroups(c: Config, t: State)
    requires OpsInv(c, t) && HistInv(t)
    ensures forall i :: 0 <= i < |Durable(t)| ==> GroupOk(t.performed, t.ops, Durable(t)[i])
    ensures forall i, j :: 0 <= i < j < |Durable(t)| ==> Durable(t)[i].next <= Durable(t)[j].first
  {
    if HeaderWritten(t) {
      CurrentGroupOk(c, t);
    }
  }

  /** What is durable stays durable: later states only add groups at the end. */
  lemma {:induction false} DurableGrows(c: Config, s: State, home: DiskMap, steps: seq<Step>, more: seq<Step>)
    requires Initial(c, s, home) && CanRun(c, s, steps + more)
    ensures CanRun(c, s, steps)
    ensures Durable(After(c, s, steps)) <= Durable(After(c, s, steps + more))
    decreases |more|
  {
    if more == [] {
      assert steps + more == steps;
    } else {
      var n := |more| - 1;
      var all := steps + more;
      assert all[..|all| - 1] == steps + more[..n];
      DurableGrows(c, s, home, steps, more[..n]);
      var t := After(c, s, steps + more[..n]);
      InvHolds(c, s, home, steps + more[..n]);
      DurableStep(c, t, home, more[n]);
    }
  }

  lemma DurableStep(c: Config, t: State, home: DiskMap, step: Step)
    requires Inv(c, t, home) && Enabled(c, t, step)
    ensures Durable(t) <= Durable(Do(c, t, step))
  {
    match step
    case BeginOp =>
    case Modify(p, b, data) => CommitExcludesOps(c, t, p);
    case LogWrite(p, b) => CommitExcludesOps(c, t, p);
    case EndOp(p) =>
    case DiskWrite =>
    case CommitDone =>
    case Crash(ks) =>
  }
}
