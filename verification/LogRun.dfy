/** Every interleaving of file system operations on the log, with crashes at any time.

    A state is what `struct log`, the cache and the disk hold, together with the history of
    the run: every change an operation made to a block (`performed`) and the groups that
    were committed.  The critical sections under `log.lock` are atomic, and so is each disk
    write of the committing process; everything else may interleave. */
module LogRun {
  import opened LogDisk
  import opened LogPolicy
  import opened LogCode

  /** An operation between `begin_op` and `end_op` has logged some blocks, and has changed
      but not yet logged others, whose buffers it still holds locked.  A crash loses it. */
  datatype OpStatus =
    | Active(logged: set<int>, unlogged: set<int>)
    | Ended
    | Lost

  /** Operation `op` changed a block. */
  datatype Effect = Effect(op: nat, w: Write)

  /** The operations `first .. next`, committed together, and all that they did. */
  datatype Group = Group(first: nat, next: nat, effects: seq<Effect>)

  datatype State = State(
    store: Store,
    lh: seq<int>,
    outstanding: int,
    committing: bool,
    ops: seq<OpStatus>,
    first: nat,               // the first operation of the current group
    performed: seq<Effect>,
    groups: seq<Group>,
    began: Store,             // the store when the commit under way began
    progress: nat)            // how many disk writes that commit has done

  datatype Step =
    | BeginOp
    | Modify(op: nat, b: int, data: Block)
    | LogWrite(op: nat, b: int)
    | EndOp(op: nat)
    | DiskWrite
    | CommitDone
    | Crash(ks: seq<nat>)

  predicate IsActive(s: State, p: nat) {
    p < |s.ops| && s.ops[p].Active?
  }

  // --- the disk writes of a commit, one at a time ----------------------------------------

  function CommitLength(lh: seq<int>): nat {
    if lh == [] then 0 else 2 * |lh| + 2
  }

  /** The next disk write of `commit`, computed from what is there now. */
  function CommitStep(l: Layout, lh: seq<int>, st: Store, k: nat): Store
    requires k < CommitLength(lh)
  {
    if k < |lh| then st.Bwrite(l.start + k + 1, st.Bread(lh[k]))
    else if k == |lh| then Headed(l, lh, st)
    else if k <= 2 * |lh| then InstallTurn(l, lh[k - |lh| - 1], st, false, k - |lh|)
    else Headed(l, [], st)
  }

  // --- steps ------------------------------------------------------------------------------

  ghost predicate Enabled(c: Config, s: State, step: Step) {
    match step
    case BeginOp =>
      Admits(c, |s.lh|, s.outstanding, s.committing)
    case Modify(p, b, data) =>
      // the buffer lock keeps others away until the change is logged
      && IsActive(s, p)
      && b in s.store.disk && !InLog(c.layout, b)
      && (forall q :: 0 <= q < |s.ops| && q != p && s.ops[q].Active? ==> b !in s.ops[q].unlogged)
    case LogWrite(p, b) =>
      && IsActive(s, p)
      && b in s.ops[p].unlogged
      && |s.ops[p].logged + {b}| <= c.maxop
      && LogWriteOutcome(c, |s.lh|, s.outstanding) == Logged
    case EndOp(p) =>
      IsActive(s, p) && s.ops[p].unlogged == {} && !s.committing
    case DiskWrite =>
      s.committing && s.progress < CommitLength(s.lh)
    case CommitDone =>
      s.committing && s.progress == CommitLength(s.lh)
    case Crash(ks) =>
      GoodDisk(c.layout, s.store.disk)
  }

  /** The header of the commit under way has reached the disk. */
  predicate HeaderWritten(s: State) {
    s.committing && |s.lh| < s.progress
  }

  function CurrentGroup(s: State): Group {
    Group(s.first, |s.ops|, Between(s.performed, s.first, |s.ops|))
  }

  function Between(es: seq<Effect>, lo: nat, hi: nat): seq<Effect> {
    if es == [] then []
    else
      var last := es[|es| - 1];
      var rest := Between(es[..|es| - 1], lo, hi);
      if lo <= last.op < hi then rest + [last] else rest
  }

  function LoseActive(ops: seq<OpStatus>): (r: seq<OpStatus>)
    ensures |r| == |ops|
    ensures forall i :: 0 <= i < |ops| ==> r[i] == if ops[i].Active? then Lost else ops[i]
  {
    seq(|ops|, i requires 0 <= i < |ops| => if ops[i].Active? then Lost else ops[i])
  }

  ghost function Do(c: Config, s: State, step: Step): State
    requires Enabled(c, s, step)
  {
    match step
    case BeginOp =>
      s.(outstanding := s.outstanding + 1, ops := s.ops + [Active({}, {})])
    case Modify(p, b, data) =>
      s.(store := s.store.(dirty := s.store.dirty[b := data]),
         ops := s.ops[p := s.ops[p].(unlogged := s.ops[p].unlogged + {b})],
         performed := s.performed + [Effect(p, Write(b, data))])
    case LogWrite(p, b) =>
      s.(store := if b in s.lh then s.store else s.store.Bpin(b),
         lh := Absorb(s.lh, b),
         ops := s.ops[p := Active(s.ops[p].logged + {b}, s.ops[p].unlogged - {b})])
    case EndOp(p) =>
      var s' := s.(outstanding := s.outstanding - 1, ops := s.ops[p := Ended]);
      if s'.outstanding == 0 then s'.(committing := true, began := s.store, progress := 0) else s'
    case DiskWrite =>
      s.(store := CommitStep(c.layout, s.lh, s.store, s.progress), progress := s.progress + 1)
    case CommitDone =>
      s.(committing := false, lh := [], groups := s.groups + [CurrentGroup(s)], first := |s.ops|)
    case Crash(ks) =>
      s.(store := Store(AfterCrashes(c.layout, s.store.disk, ks), map[], {}, []),
         lh := [], outstanding := 0, committing := false,
         ops := LoseActive(s.ops),
         groups := if HeaderWritten(s) then s.groups + [CurrentGroup(s)] else s.groups,
         first := |s.ops|)
  }

  // --- runs ---------------------------------------------------------------------------------

  ghost predicate Initial(c: Config, s: State, home: DiskMap) {
    && GoodDisk(c.layout, s.store.disk) && OnDisk(c.layout, s.store.disk) == []
    && Home(c.layout, s.store.disk) == home
    && s.store.dirty == map[] && s.store.pins == {}
    && s.lh == [] && s.outstanding == 0 && !s.committing
    && s.ops == [] && s.first == 0 && s.performed == [] && s.groups == []
  }

  ghost predicate CanRun(c: Config, s: State, steps: seq<Step>)
    decreases |steps|, 0
  {
    steps != [] ==>
      var init := steps[..|steps| - 1];
      CanRun(c, s, init) && Enabled(c, After(c, s, init), steps[|steps| - 1])
  }

  ghost function After(c: Config, s: State, steps: seq<Step>): State
    requires CanRun(c, s, steps)
    decreases |steps|, 1
  {
    if steps == [] then s
    else Do(c, After(c, s, steps[..|steps| - 1]), steps[|steps| - 1])
  }

  // --- what the history says the home blocks should be ---------------------------------------

  function Perform(home: DiskMap, es: seq<Effect>): DiskMap {
    if es == [] then home
    else
      var last := es[|es| - 1];
      Perform(home, es[..|es| - 1])[last.w.blockno := last.w.data]
  }

  function PerformGroups(home: DiskMap, gs: seq<Group>): DiskMap {
    if gs == [] then home
    else Perform(PerformGroups(home, gs[..|gs| - 1]), gs[|gs| - 1].effects)
  }

  // --- budgets ---------------------------------------------------------------------------------

  function CountActive(ops: seq<OpStatus>): nat {
    if ops == [] then 0
    else CountActive(ops[..|ops| - 1]) + (if ops[|ops| - 1].Active? then 1 else 0)
  }

  /** The distinct blocks that the operation may still add to the log. */
  function Left(c: Config, op: OpStatus): int {
    if op.Active? then c.maxop - |op.logged| else 0
  }

  function Unused(c: Config, ops: seq<OpStatus>): int {
    if ops == [] then 0 else Unused(c, ops[..|ops| - 1]) + Left(c, ops[|ops| - 1])
  }

  lemma CountAppend(ops: seq<OpStatus>, x: OpStatus)
    ensures CountActive(ops + [x]) == CountActive(ops) + (if x.Active? then 1 else 0)
  {
    assert (ops + [x])[..|ops|] == ops;
  }

  lemma UnusedAppend(c: Config, ops: seq<OpStatus>, x: OpStatus)
    ensures Unused(c, ops + [x]) == Unused(c, ops) + Left(c, x)
  {
    assert (ops + [x])[..|ops|] == ops;
  }

  lemma {:induction false} CountUpdate(ops: seq<OpStatus>, p: nat, x: OpStatus)
    requires p < |ops|
    ensures CountActive(ops[p := x])
         == CountActive(ops) - (if ops[p].Active? then 1 else 0) + (if x.Active? then 1 else 0)
  {
    var n := |ops| - 1;
    if p < n {
      CountUpdate(ops[..n], p, x);
      assert ops[p := x][..n] == ops[..n][p := x];
    } else {
      assert ops[p := x][..n] == ops[..n];
    }
  }

  lemma {:induction false} UnusedUpdate(c: Config, ops: seq<OpStatus>, p: nat, x: OpStatus)
    requires p < |ops|
    ensures Unused(c, ops[p := x]) == Unused(c, ops) - Left(c, ops[p]) + Left(c, x)
  {
    var n := |ops| - 1;
    if p < n {
      UnusedUpdate(c, ops[..n], p, x);
      assert ops[p := x][..n] == ops[..n][p := x];
    } else {
      assert ops[p := x][..n] == ops[..n];
    }
  }

  lemma {:induction false} UnusedBound(c: Config, ops: seq<OpStatus>)
    ensures Unused(c, ops) <= CountActive(ops) * c.maxop
  {
    if ops != [] {
      UnusedBound(c, ops[..|ops| - 1]);
    }
  }

  lemma {:induction false} NoneActive(c: Config, ops: seq<OpStatus>)
    requires forall i :: 0 <= i < |ops| ==> !ops[i].Active?
    ensures CountActive(ops) == 0 && Unused(c, ops) == 0
  {
    if ops != [] {
      NoneActive(c, ops[..|ops| - 1]);
    }
  }

  lemma ActiveCounts(ops: seq<OpStatus>, p: nat)
    requires p < |ops| && ops[p].Active?
    ensures 0 < CountActive(ops)
  {
    CountUpdate(ops, p, Ended);
  }

  /** While someone is active, some of the total is theirs. */
  lemma {:induction false} UnusedAtLeast(c: Config, ops: seq<OpStatus>, p: nat)
    requires p < |ops|
    requires forall i :: 0 <= i < |ops| ==> 0 <= Left(c, ops[i])
    ensures Left(c, ops[p]) <= Unused(c, ops)
  {
    var init := ops[..|ops| - 1];
    UnusedNonNegative(c, init);
    if p < |init| {
      UnusedAtLeast(c, init, p);
    }
  }

  lemma {:induction false} UnusedNonNegative(c: Config, ops: seq<OpStatus>)
    requires forall i :: 0 <= i < |ops| ==> 0 <= Left(c, ops[i])
    ensures 0 <= Unused(c, ops)
  {
    if ops != [] {
      UnusedNonNegative(c, ops[..|ops| - 1]);
    }
  }

  // --- invariant: who is running ----------------------------------------------------------------

  ghost predicate OpsInv(c: Config, s: State) {
    && s.outstanding == CountActive(s.ops)
    && (s.committing ==> s.outstanding == 0)
    && s.first <= |s.ops|
    && (forall p :: 0 <= p < s.first ==> !s.ops[p].Active?)
    && (forall p :: s.first <= p < |s.ops| ==> !s.ops[p].Lost?)
    && (forall p :: 0 <= p < |s.ops| && s.ops[p].Active? ==> |s.ops[p].logged| <= c.maxop)
  }

  /** Replacing one operation's record by another active or ended one. */
  lemma OpsInvUpdate(c: Config, s: State, p: nat, x: OpStatus)
    requires OpsInv(c, s) && IsActive(s, p) && !x.Lost?
    requires x.Active? ==> |x.logged| <= c.maxop
    ensures !s.committing
    ensures OpsInv(c, s.(ops := s.ops[p := x], outstanding := s.outstanding - if x.Active? then 0 else 1))
  {
    CountUpdate(s.ops, p, x);
    ActiveCounts(s.ops, p);
  }

  lemma OpsInvStep(c: Config, s: State, step: Step)
    requires OpsInv(c, s) && Enabled(c, s, step)
    ensures OpsInv(c, Do(c, s, step))
  {
    match step
    case BeginOp =>
      CountAppend(s.ops, Active({}, {}));
    case Modify(p, b, data) =>
      OpsInvUpdate(c, s, p, s.ops[p].(unlogged := s.ops[p].unlogged + {b}));
    case LogWrite(p, b) =>
      OpsInvUpdate(c, s, p, Active(s.ops[p].logged + {b}, s.ops[p].unlogged - {b}));
    case EndOp(p) =>
      OpsInvUpdate(c, s, p, Ended);
    case DiskWrite =>
    case CommitDone =>
      NobodyActive(c, s);
    case Crash(ks) =>
      NoneActive(c, LoseActive(s.ops));
  }

  /** While a commit is under way no operation is, so nobody can reach `log_write`, and the
      "log.committing" panic of `end_op` is unreachable. */
  lemma CommitExcludesOps(c: Config, s: State, p: nat)
    requires OpsInv(c, s) && IsActive(s, p)
    ensures !s.committing
  {
    ActiveCounts(s.ops, p);
  }

  // --- invariant: the in-memory header -------------------------------------------------------------

  ghost predicate ListInv(c: Config, s: State) {
    && Distinct(s.lh) && |s.lh| < c.layout.size
    && (forall p :: 0 <= p < |s.ops| && s.ops[p].Active? ==>
          forall b :: b in s.ops[p].logged ==> b in s.lh)
    && |s.lh| + Unused(c, s.ops) <= c.logsize
  }

  /** Replacing one operation's record, and adding to the header no more than its budget. */
  lemma ListInvUpdate(c: Config, s: State, p: nat, x: OpStatus, lh: seq<int>)
    requires ListInv(c, s) && p < |s.ops|
    requires Distinct(lh) && |lh| < c.layout.size && s.lh <= lh
    requires x.Active? ==> forall b :: b in x.logged ==> b in lh
    requires |lh| + Left(c, x) <= |s.lh| + Left(c, s.ops[p])
    ensures ListInv(c, s.(lh := lh, ops := s.ops[p := x]))
  {
    UnusedUpdate(c, s.ops, p, x);
  }

  /** A log write that is within the budget of its operation keeps the total. */
  lemma ListInvLogWrite(c: Config, s: State, p: nat, b: int)
    requires ListInv(c, s) && Enabled(c, s, LogWrite(p, b))
    ensures ListInv(c, Do(c, s, LogWrite(p, b)))
  {
    var op := s.ops[p];
    if b in s.lh {
      if b in op.logged {
        assert op.logged + {b} == op.logged;
      }
    } else {
      assert b !in op.logged;
    }
    ListInvUpdate(c, s, p, Active(op.logged + {b}, op.unlogged - {b}), Absorb(s.lh, b));
  }

  lemma NobodyActive(c: Config, s: State)
    requires OpsInv(c, s) && s.outstanding == 0
    ensures forall p :: 0 <= p < |s.ops| ==> !s.ops[p].Active?
  {
    forall p | 0 <= p < |s.ops| ensures !s.ops[p].Active? {
      if s.ops[p].Active? {
        ActiveCounts(s.ops, p);
      }
    }
  }

  /** Between transactions the header is empty and everyone's budget is whole. */
  lemma ListInvEmpty(c: Config, s: State)
    requires 0 < c.layout.size && s.lh == []
    requires forall p :: 0 <= p < |s.ops| ==> !s.ops[p].Active?
    ensures ListInv(c, s)
  {
    NoneActive(c, s.ops);
  }

  lemma ListInvBegin(c: Config, s: State)
    requires OpsInv(c, s) && ListInv(c, s) && Enabled(c, s, BeginOp)
    ensures ListInv(c, Do(c, s, BeginOp))
  {
    UnusedAppend(c, s.ops, Active({}, {}));
    UnusedBound(c, s.ops);
  }

  lemma ListInvStep(c: Config, s: State, step: Step)
    requires 0 < c.layout.size
    requires OpsInv(c, s) && ListInv(c, s) && Enabled(c, s, step)
    ensures ListInv(c, Do(c, s, step))
  {
    match step
    case BeginOp =>
      ListInvBegin(c, s);
    case Modify(p, b, data) =>
      ListInvUpdate(c, s, p, s.ops[p].(unlogged := s.ops[p].unlogged + {b}), s.lh);
    case LogWrite(p, b) =>
      ListInvLogWrite(c, s, p, b);
    case EndOp(p) =>
      ListInvUpdate(c, s, p, Ended, s.lh);
    case DiskWrite =>
    case CommitDone =>
      NobodyActive(c, s);
      ListInvEmpty(c, Do(c, s, step));
    case Crash(ks) =>
      ListInvEmpty(c, Do(c, s, step));
  }

  // --- invariant: the history -----------------------------------------------------------------------

  /** A group is a run of operations that all ended, with everything that they did. */
  ghost predicate GroupOk(performed: seq<Effect>, ops: seq<OpStatus>, g: Group) {
    && g.first <= g.next <= |ops|
    && g.effects == Between(performed, g.first, g.next)
    && (forall p :: g.first <= p < g.next ==> ops[p].Ended?)
  }

  ghost predicate HistInv(s: State) {
    && (forall i :: 0 <= i < |s.performed| ==> s.performed[i].op < |s.ops|)
    && (forall i :: 0 <= i < |s.groups| ==>
          GroupOk(s.performed, s.ops, s.groups[i]) && s.groups[i].next <= s.first)
    && (forall i, j :: 0 <= i < j < |s.groups| ==> s.groups[i].next <= s.groups[j].first)
  }

  lemma BetweenAppend(es: seq<Effect>, e: Effect, lo: nat, hi: nat)
    ensures Between(es + [e], lo, hi) == Between(es, lo, hi) + (if lo <= e.op < hi then [e] else [])
  {
    assert (es + [e])[..|es|] == es;
  }

  lemma {:induction false} BetweenBound(es: seq<Effect>, lo: nat, hi: nat, hi': nat)
    requires forall i :: 0 <= i < |es| ==> es[i].op < hi
    requires hi <= hi'
    ensures Between(es, lo, hi) == Between(es, lo, hi')
  {
    if es != [] {
      BetweenBound(es[..|es| - 1], lo, hi, hi');
    }
  }

  lemma {:induction false} BetweenNone(es: seq<Effect>, hi: nat)
    requires forall i :: 0 <= i < |es| ==> es[i].op < hi
    ensures Between(es, hi, hi) == []
  {
    if es != [] {
      BetweenNone(es[..|es| - 1], hi);
    }
  }

  lemma HistInvModify(c: Config, s: State, p: nat, b: int, data: Block)
    requires OpsInv(c, s) && HistInv(s) && Enabled(c, s, Modify(p, b, data))
    ensures HistInv(Do(c, s, Modify(p, b, data)))
  {
    var e := Effect(p, Write(b, data));
    forall i | 0 <= i < |s.groups|
      ensures GroupOk(s.performed + [e], s.ops[p := s.ops[p].(unlogged := s.ops[p].unlogged + {b})], s.groups[i])
    {
      BetweenAppend(s.performed, e, s.groups[i].first, s.groups[i].next);
    }
  }

  lemma CurrentGroupOk(c: Config, s: State)
    requires OpsInv(c, s) && s.outstanding == 0
    ensures GroupOk(s.performed, s.ops, CurrentGroup(s))
  {
    NobodyActive(c, s);
  }

  lemma SameGroup(s: State, ops: seq<OpStatus>, g: Group)
    requires GroupOk(s.performed, s.ops, g) && g.next <= s.first <= |ops|
    requires forall p :: g.first <= p < g.next && s.ops[p].Ended? ==> ops[p].Ended?
    ensures GroupOk(s.performed, ops, g)
  {
  }

  /** No group is added, and the operations that ended stay ended. */
  lemma HistInvSame(s: State, s': State)
    requires HistInv(s) && s.first <= |s.ops| <= |s'.ops| && s'.performed == s.performed && s'.groups == s.groups
    requires s.first <= s'.first && forall p :: 0 <= p < |s.ops| && s.ops[p].Ended? ==> s'.ops[p].Ended?
    ensures HistInv(s')
  {
    forall i | 0 <= i < |s.groups| ensures GroupOk(s'.performed, s'.ops, s.groups[i]) {
      SameGroup(s, s'.ops, s.groups[i]);
    }
  }

  /** The current group becomes the last committed one. */
  lemma HistInvNext(c: Config, s: State, s': State)
    requires OpsInv(c, s) && s.outstanding == 0 && HistInv(s)
    requires |s'.ops| == |s.ops| == s'.first && s'.performed == s.performed && s'.groups == s.groups + [CurrentGroup(s)]
    requires forall p :: 0 <= p < |s.ops| && s.ops[p].Ended? ==> s'.ops[p].Ended?
    ensures HistInv(s')
  {
    CurrentGroupOk(c, s);
    SameGroup(s.(first := |s.ops|), s'.ops, CurrentGroup(s));
    forall i | 0 <= i < |s.groups| ensures GroupOk(s'.performed, s'.ops, s.groups[i]) {
      SameGroup(s, s'.ops, s.groups[i]);
    }
  }

  lemma HistInvStep(c: Config, s: State, step: Step)
    requires OpsInv(c, s) && HistInv(s) && Enabled(c, s, step)
    ensures HistInv(Do(c, s, step))
  {
    if step.Modify? {
      HistInvModify(c, s, step.op, step.b, step.data);
    } else if step.CommitDone? || (step.Crash? && HeaderWritten(s)) {
      HistInvNext(c, s, Do(c, s, step));
    } else {
      HistInvSame(s, Do(c, s, step));
    }
  }
}
