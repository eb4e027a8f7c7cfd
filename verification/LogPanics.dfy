/** When the guards of `log_write` and `end_op` can panic, over every run of `LogRun`. */
module LogPanics {
  import opened LogDisk
  import opened LogPolicy
  import opened LogCode
  import opened LogRun
  import opened LogSafety

  /** In no reachable state is a commit under way while an operation is: `log_write` never
      runs during a commit, and `end_op` never meets `log.committing`. */
  lemma NoOpDuringCommit(c: Config, s: State, home: DiskMap, steps: seq<Step>, p: nat)
    requires Initial(c, s, home) && CanRun(c, s, steps) && IsActive(After(c, s, steps), p)
    ensures !After(c, s, steps).committing && After(c, s, steps).outstanding >= 1
  {
    InvHolds(c, s, home, steps);
    ActiveCounts(After(c, s, steps).ops, p);
  }

  /** The log never overflows its budget: the blocks logged so far and the distinct blocks
      that the operations under way may still log fit in LOGSIZE together. */
  lemma BudgetHolds(c: Config, s: State, home: DiskMap, steps: seq<Step>)
    requires Initial(c, s, home) && CanRun(c, s, steps)
    ensures var t := After(c, s, steps);
            |t.lh| + Unused(c, t.ops) <= c.logsize && Distinct(t.lh)
  {
    InvHolds(c, s, home, steps);
  }

  /** A `log_write` of a new block within the budget panics exactly when the log on disk is
      too small, and so never when the log area exceeds LOGSIZE. */
  lemma NewBlockGuard(c: Config, s: State, home: DiskMap, steps: seq<Step>, p: nat, b: int)
    requires Initial(c, s, home) && CanRun(c, s, steps)
    requires var t := After(c, s, steps);
             IsActive(t, p) && b !in t.lh && |t.ops[p].logged + {b}| <= c.maxop
    ensures var t := After(c, s, steps);
            && (LogWriteOutcome(c, |t.lh|, t.outstanding) != Logged <==> |t.lh| + 1 >= c.layout.size)
            && (c.layout.size > c.logsize ==> LogWriteOutcome(c, |t.lh|, t.outstanding) == Logged)
  {
    InvHolds(c, s, home, steps);
    var t := After(c, s, steps);
    ActiveCounts(t.ops, p);
    assert b !in t.ops[p].logged;
    assert |t.ops[p].logged + {b}| == |t.ops[p].logged| + 1;
    UnusedAtLeast(c, t.ops, p);
  }

  /** A block that is in the transaction already costs no budget, but the guard comes
      before absorption is tried: such a `log_write` panics exactly when the header is full. */
  lemma AbsorbedBlockGuard(c: Config, s: State, home: DiskMap, steps: seq<Step>, p: nat, b: int)
    requires Initial(c, s, home) && CanRun(c, s, steps) && c.layout.size > c.logsize
    requires IsActive(After(c, s, steps), p) && b in After(c, s, steps).lh
    ensures var t := After(c, s, steps);
            LogWriteOutcome(c, |t.lh|, t.outstanding) != Logged <==> |t.lh| == c.logsize
  {
    InvHolds(c, s, home, steps);
    var t := After(c, s, steps);
    ActiveCounts(t.ops, p);
    UnusedNonNegative(c, t.ops);
  }

  // --- how full the header gets --------------------------------------------------------------

  /** The most blocks that a transaction can hold.  Where two whole budgets do not fit in
      LOGSIZE there is never a second operation in a transaction. */
  function Limit(c: Config): nat {
    if 2 * c.maxop <= c.logsize then c.logsize else c.maxop
  }

  ghost predicate AloneInv(c: Config, s: State) {
    c.logsize < 2 * c.maxop && !s.committing ==>
      && s.outstanding <= 1 && (s.outstanding == 0 ==> s.lh == [])
      && (forall p :: 0 <= p < |s.ops| && s.ops[p].Active? ==> |s.lh| <= |s.ops[p].logged|)
  }

  lemma OnlyOne(c: Config, s: State, p: nat, q: nat)
    requires OpsInv(c, s) && s.outstanding <= 1 && IsActive(s, p) && IsActive(s, q)
    ensures p == q
  {
    if p != q {
      CountUpdate(s.ops, p, Ended);
      ActiveCounts(s.ops[p := Ended], q);
    }
  }

  lemma AloneLogWrite(c: Config, s: State, p: nat, b: int)
    requires OpsInv(c, s) && ListInv(c, s) && AloneInv(c, s) && Enabled(c, s, LogWrite(p, b))
    ensures AloneInv(c, Do(c, s, LogWrite(p, b)))
  {
    var s' := Do(c, s, LogWrite(p, b));
    CommitExcludesOps(c, s, p);
    if c.logsize < 2 * c.maxop {
      forall q | 0 <= q < |s'.ops| && s'.ops[q].Active? ensures |s'.lh| <= |s'.ops[q].logged| {
        OnlyOne(c, s, p, q);
        LoggedGrows(s.lh, s.ops[p].logged, b);
      }
      ActiveCounts(s.ops, p);
    }
  }

  lemma LoggedGrows(lh: seq<int>, logged: set<int>, b: int)
    requires |lh| <= |logged| && forall x :: x in logged ==> x in lh
    ensures |Absorb(lh, b)| <= |logged + {b}|
  {
    if b in logged {
      assert logged + {b} == logged;
    }
  }

  lemma AloneStep(c: Config, s: State, step: Step)
    requires OpsInv(c, s) && ListInv(c, s) && AloneInv(c, s) && Enabled(c, s, step)
    ensures AloneInv(c, Do(c, s, step))
  {
    if step.BeginOp? {
      if s.outstanding == 0 {
        NobodyActive(c, s);
      } else {
        TwoBudgets(s.outstanding, c.maxop);
      }
    } else if step.LogWrite? {
      AloneLogWrite(c, s, step.op, step.b);
    } else if step.CommitDone? {
      NobodyActive(c, s);
    }
  }

  lemma TwoBudgets(n: int, maxop: nat)
    requires 1 <= n
    ensures 2 * maxop <= (n + 1) * maxop
  {
  }

  lemma {:induction false} AloneHolds(c: Config, s: State, home: DiskMap, steps: seq<Step>)
    requires Initial(c, s, home) && CanRun(c, s, steps)
    ensures AloneInv(c, After(c, s, steps))
    decreases |steps|
  {
    if steps != [] {
      var init := steps[..|steps| - 1];
      AloneHolds(c, s, home, init);
      InvHolds(c, s, home, init);
      AloneStep(c, After(c, s, init), steps[|steps| - 1]);
    }
  }

  /** While an operation runs the transaction holds at most `Limit` blocks, and fewer while the
      operation has budget left. */
  lemma WithinLimit(c: Config, s: State, home: DiskMap, steps: seq<Step>, p: nat)
    requires Initial(c, s, home) && CanRun(c, s, steps) && IsActive(After(c, s, steps), p)
    ensures var t := After(c, s, steps);
            |t.lh| <= Limit(c) && (|t.ops[p].logged| < c.maxop ==> |t.lh| < Limit(c))
  {
    InvHolds(c, s, home, steps);
    AloneHolds(c, s, home, steps);
    var t := After(c, s, steps);
    CommitExcludesOps(c, t, p);
    UnusedAtLeast(c, t.ops, p);
  }

  /** If the log area has more than `Limit` blocks, no run reaches a `log_write` of a new block
      that panics. */
  lemma NewBlockSafe(c: Config, s: State, home: DiskMap, steps: seq<Step>, p: nat, b: int)
    requires Initial(c, s, home) && CanRun(c, s, steps) && Limit(c) < c.layout.size
    requires var t := After(c, s, steps);
             IsActive(t, p) && b !in t.lh && |t.ops[p].logged + {b}| <= c.maxop
    ensures var t := After(c, s, steps);
            LogWriteOutcome(c, |t.lh|, t.outstanding) == Logged
  {
    NewBlockGuard(c, s, home, steps, p, b);
    InvHolds(c, s, home, steps);
    var t := After(c, s, steps);
    assert b !in t.ops[p].logged;
    assert |t.ops[p].logged + {b}| == |t.ops[p].logged| + 1;
    WithinLimit(c, s, home, steps, p);
  }

  /** If neither the header nor the log area can get full, no run reaches a `log_write` that
      panics on a block of the transaction. */
  lemma AbsorbedBlockSafe(c: Config, s: State, home: DiskMap, steps: seq<Step>, p: nat, b: int)
    requires Initial(c, s, home) && CanRun(c, s, steps) && Limit(c) < c.logsize && Limit(c) + 1 < c.layout.size
    requires IsActive(After(c, s, steps), p) && b in After(c, s, steps).lh
    ensures var t := After(c, s, steps);
            LogWriteOutcome(c, |t.lh|, t.outstanding) == Logged
  {
    WithinLimit(c, s, home, steps, p);
    NoOpDuringCommit(c, s, home, steps, p);
  }

  // --- the runs that fill the header -------------------------------------------------------------

  /** The `i`-th block after the log. */
  function NewBlock(c: Config, i: int): int {
    c.layout.start + c.layout.size + i
  }

  predicate OnFresh(c: Config, b: int) {
    c.layout.start <= b <= NewBlock(c, c.logsize)
  }

  /** A disk with an empty log and enough blocks after it. */
  function FreshDisk(c: Config): (d: DiskMap)
    requires 0 < c.layout.size
    ensures forall b: int :: b in d <==> OnFresh(c, b)
    ensures forall b: int :: b in d ==> |d[b]| == c.layout.size && d[b][0] == 0
  {
    map b | c.layout.start <= b <= NewBlock(c, c.logsize) && OnFresh(c, b) :: seq(c.layout.size, i => 0)
  }

  function FreshState(c: Config): State
    requires 0 < c.layout.size
  {
    var st := Store(FreshDisk(c), map[], {}, []);
    State(st, [], 0, false, [], 0, [], [], st, 0)
  }

  lemma FreshInitial(c: Config)
    requires 0 < c.layout.size
    ensures Initial(c, FreshState(c), Home(c.layout, FreshDisk(c))) && CanRun(c, FreshState(c), [])
    ensures Filled(c, FreshState(c), 0, 0)
  {
    assert InLog(c.layout, c.layout.start);
  }

  /** `n` operations run, each of them between two log writes, and `u` new blocks are logged. */
  ghost predicate Filled(c: Config, t: State, u: nat, n: nat) {
    && 0 < c.layout.size && t.store.disk == FreshDisk(c) && !t.committing && t.outstanding == n && |t.lh| == u
    && (forall b :: b in t.lh ==> NewBlock(c, 0) <= b < NewBlock(c, u))
    && (forall q :: 0 <= q < |t.ops| && t.ops[q].Active? ==> AtRest(c, t.ops[q], u))
  }

  ghost predicate AtRest(c: Config, op: OpStatus, u: nat)
    requires op.Active?
  {
    op.unlogged == {} && forall b :: b in op.logged ==> b < NewBlock(c, u)
  }

  lemma RunMore(c: Config, s: State, steps: seq<Step>, step: Step)
    requires CanRun(c, s, steps) && Enabled(c, After(c, s, steps), step)
    ensures CanRun(c, s, steps + [step])
    ensures After(c, s, steps + [step]) == Do(c, After(c, s, steps), step)
  {
    assert (steps + [step])[..|steps|] == steps;
  }

  lemma CanModify(c: Config, t: State, u: nat, n: nat, p: nat)
    requires Filled(c, t, u, n) && IsActive(t, p) && u <= c.logsize
    ensures Enabled(c, t, Modify(p, NewBlock(c, u), []))
    ensures NewBlock(c, u) !in t.lh && NewBlock(c, u) !in t.ops[p].logged
    ensures |t.ops[p].logged + {NewBlock(c, u)}| == |t.ops[p].logged| + 1
  {
    assert AtRest(c, t.ops[p], u);
  }

  lemma CanModifyAgain(c: Config, t: State, u: nat, n: nat, b: int)
    requires Filled(c, t, u, n) && IsActive(t, 0) && u <= c.logsize && b in t.lh
    ensures Enabled(c, t, Modify(0, b, []))
  {
    assert AtRest(c, t.ops[0], u);
  }

  /** `steps` is a run that gets there, with the operations in the states `ops`. */
  ghost predicate Reached(c: Config, s: State, steps: seq<Step>, u: nat, n: nat, ops: seq<OpStatus>) {
    CanRun(c, s, steps) && Filled(c, After(c, s, steps), u, n) && After(c, s, steps).ops == ops
  }

  /** Operation `p` logs one more block. */
  lemma LogNew(c: Config, s: State, steps: seq<Step>, u: nat, n: nat, ops: seq<OpStatus>, p: nat)
      returns (more: seq<Step>, op: OpStatus)
    requires Reached(c, s, steps, u, n, ops) && p < |ops| && ops[p].Active?
    requires |ops[p].logged| < c.maxop && u + 1 < c.layout.size && u < c.logsize && 1 <= n
    ensures Reached(c, s, more, u + 1, n, ops[p := op])
    ensures op.Active? && |op.logged| == |ops[p].logged| + 1 && NewBlock(c, u) in op.logged
  {
    var t, b := After(c, s, steps), NewBlock(c, u);
    CanModify(c, t, u, n, p);
    RunMore(c, s, steps, Modify(p, b, []));
    var mid := steps + [Modify(p, b, [])];
    assert After(c, s, mid).ops[p] == Active(ops[p].logged, {b});
    RunMore(c, s, mid, LogWrite(p, b));
    more, op := mid + [LogWrite(p, b)], Active(ops[p].logged + {b}, {});
    assert {b} - {b} == {};
    LoggedNew(c, t, After(c, s, more), u, n, p);
  }

  lemma LoggedNew(c: Config, t: State, t': State, u: nat, n: nat, p: nat)
    requires Filled(c, t, u, n) && IsActive(t, p)
    requires t'.store.disk == t.store.disk && !t'.committing && t'.outstanding == n
    requires t'.lh == t.lh + [NewBlock(c, u)] && t'.ops == t.ops[p := Active(t.ops[p].logged + {NewBlock(c, u)}, {})]
    ensures Filled(c, t', u + 1, n)
  {
    forall q | 0 <= q < |t'.ops| && t'.ops[q].Active? ensures AtRest(c, t'.ops[q], u + 1) {
      assert AtRest(c, t.ops[q], u);
    }
  }

  /** Only operation `p` has moved, and it has logged `n` more blocks. */
  predicate Moved(ops: seq<OpStatus>, ops': seq<OpStatus>, p: nat, n: nat) {
    && p < |ops| == |ops'| && ops[p].Active? && ops'[p].Active? && |ops'[p].logged| == |ops[p].logged| + n
    && (forall q :: 0 <= q < |ops| && q != p ==> ops'[q] == ops[q])
  }

  /** Operation `p` logs new blocks until there are `k`. */
  lemma {:induction false} LogMany(c: Config, s: State, steps: seq<Step>, u: nat, k: nat, n: nat,
                                   ops: seq<OpStatus>, p: nat)
      returns (more: seq<Step>, ops': seq<OpStatus>)
    requires Reached(c, s, steps, u, n, ops) && p < |ops| && ops[p].Active?
    requires u <= k < c.layout.size && k <= c.logsize && 1 <= n && |ops[p].logged| + (k - u) <= c.maxop
    ensures Reached(c, s, more, k, n, ops') && Moved(ops, ops', p, k - u)
    ensures u < k ==> NewBlock(c, k - 1) in ops'[p].logged
    decreases k - u
  {
    if u == k {
      more, ops' := steps, ops;
    } else {
      var some, half := LogMany(c, s, steps, u, k - 1, n, ops, p);
      more, ops' := LogNext(c, s, some, k, n, ops, half, p, k - u);
    }
  }

  lemma LogNext(c: Config, s: State, steps: seq<Step>, k: nat, n: nat, ops: seq<OpStatus>, half: seq<OpStatus>,
                p: nat, total: nat)
      returns (more: seq<Step>, ops': seq<OpStatus>)
    requires 1 <= k < c.layout.size && k <= c.logsize && 1 <= n && 1 <= total
    requires Reached(c, s, steps, k - 1, n, half) && Moved(ops, half, p, total - 1)
    requires |ops[p].logged| + total <= c.maxop
    ensures Reached(c, s, more, k, n, ops') && Moved(ops, ops', p, total)
    ensures NewBlock(c, k - 1) in ops'[p].logged
  {
    var op;
    more, op := LogNew(c, s, steps, k - 1, n, half, p);
    ops' := half[p := op];
  }

  /** Another operation begins. */
  lemma Begin(c: Config, s: State, steps: seq<Step>, u: nat, n: nat, ops: seq<OpStatus>) returns (more: seq<Step>)
    requires Reached(c, s, steps, u, n, ops) && u + (n + 1) * c.maxop <= c.logsize
    ensures Reached(c, s, more, u, n + 1, ops + [Active({}, {})])
  {
    Admitted(c, After(c, s, steps), u, n);
    RunMore(c, s, steps, BeginOp);
    more := steps + [BeginOp];
    Begun(c, After(c, s, steps), After(c, s, more), u, n);
  }

  lemma Admitted(c: Config, t: State, u: nat, n: nat)
    requires Filled(c, t, u, n) && u + (n + 1) * c.maxop <= c.logsize
    ensures Enabled(c, t, BeginOp)
  {
  }

  lemma Begun(c: Config, t: State, t': State, u: nat, n: nat)
    requires Filled(c, t, u, n)
    requires t'.store == t.store && !t'.committing && t'.outstanding == n + 1 && t'.lh == t.lh
    requires t'.ops == t.ops + [Active({}, {})]
    ensures Filled(c, t', u, n + 1)
  {
    forall q | 0 <= q < |t'.ops| && t'.ops[q].Active? ensures AtRest(c, t'.ops[q], u) {
      assert q < |t.ops| ==> AtRest(c, t.ops[q], u);
    }
  }

  /** Operation `p` ends while another one runs. */
  lemma End(c: Config, s: State, steps: seq<Step>, u: nat, n: nat, ops: seq<OpStatus>, p: nat)
      returns (more: seq<Step>)
    requires Reached(c, s, steps, u, n, ops) && p < |ops| && ops[p].Active? && 2 <= n
    ensures Reached(c, s, more, u, n - 1, ops[p := Ended])
  {
    var t := After(c, s, steps);
    assert AtRest(c, t.ops[p], u);
    RunMore(c, s, steps, EndOp(p));
    more := steps + [EndOp(p)];
    var t' := After(c, s, more);
    forall q | 0 <= q < |t'.ops| && t'.ops[q].Active? ensures AtRest(c, t'.ops[q], u) {
      assert AtRest(c, t.ops[q], u);
    }
  }

  /** Operation 0 has begun and has done nothing. */
  predicate Waits(ops: seq<OpStatus>) {
    0 < |ops| && ops[0] == Active({}, {})
  }

  /** Operation 0 stays and does nothing, while others come one after the other, log one block
      each and end: their unused budgets are given back, and the header fills. */
  lemma {:induction false} Rotate(c: Config, s: State, steps: seq<Step>, u: nat, k: nat, ops: seq<OpStatus>)
      returns (more: seq<Step>, ops': seq<OpStatus>)
    requires Reached(c, s, steps, u, 1, ops) && Waits(ops) && 1 <= c.maxop
    requires u <= k < c.layout.size && k + 2 * c.maxop <= c.logsize
    ensures Reached(c, s, more, k, 1, ops') && Waits(ops')
    decreases k - u
  {
    if u == k {
      more, ops' := steps, ops;
    } else {
      more, ops' := Rotate(c, s, steps, u, k - 1, ops);
      var q, op := |ops'|, Active({}, {});
      more := Begin(c, s, more, k - 1, 1, ops');
      ops' := ops' + [op];
      more, op := LogNew(c, s, more, k - 1, 2, ops', q);
      ops' := ops'[q := op];
      more := End(c, s, more, k, 2, ops', q);
      ops' := ops'[q := Ended];
    }
  }

  function Min(a: int, b: int): int {
    if a < b then a else b
  }

  /** Operation 0 still runs, and has budget left unless the transaction is as large as it gets. */
  ghost predicate ReachedBy0(c: Config, s: State, steps: seq<Step>, k: nat, n: nat, ops: seq<OpStatus>) {
    && Reached(c, s, steps, k, n, ops) && 0 < |ops| && ops[0].Active?
    && (k < Limit(c) ==> |ops[0].logged| < c.maxop)
    && (k == Limit(c) ==> |ops[0].logged| <= c.maxop && NewBlock(c, k - 1) in ops[0].logged)
  }

  lemma FillByTwo(c: Config, s: State, steps: seq<Step>, k: nat, ops: seq<OpStatus>)
      returns (more: seq<Step>, n: nat, ops': seq<OpStatus>)
    requires Reached(c, s, steps, 0, 1, ops) && Waits(ops)
    requires 1 <= c.maxop && 2 * c.maxop <= c.logsize && k <= c.logsize && k < c.layout.size
    ensures ReachedBy0(c, s, more, k, n, ops')
  {
    var k1, k2 := Min(k, c.logsize - 2 * c.maxop), Min(k, c.logsize - c.maxop);
    more, ops' := Rotate(c, s, steps, 0, k1, ops);
    n := 1;
    if k1 < k {
      var q, op := |ops'|, Active({}, {});
      more := Begin(c, s, more, k1, 1, ops');
      n, ops' := 2, ops' + [op];
      more, ops' := LogMany(c, s, more, k1, k2, 2, ops', q);
      more, ops' := LogMany(c, s, more, k2, k, 2, ops', 0);
    }
  }

  /** Every number of blocks up to `Limit` is reached, with operation 0 still running. */
  lemma FillTo(c: Config, k: nat) returns (steps: seq<Step>, n: nat, ops: seq<OpStatus>)
    requires 1 <= c.maxop <= c.logsize && k <= Limit(c) && k < c.layout.size
    ensures ReachedBy0(c, FreshState(c), steps, k, n, ops)
  {
    var s, op := FreshState(c), Active({}, {});
    FreshInitial(c);
    steps := Begin(c, s, [], 0, 0, []);
    if c.logsize < 2 * c.maxop {
      steps, ops := LogMany(c, s, steps, 0, k, 1, [op], 0);
      n := 1;
    } else {
      steps, n, ops := FillByTwo(c, s, steps, k, [op]);
    }
  }

  /** And if the log area has at most `Limit` blocks, some run does reach one.  So it is with
      the constants of the sources, a log area of LOGSIZE blocks of which one is the header. */
  lemma NewBlockPanics(c: Config) returns (s: State, steps: seq<Step>, b: int)
    requires 1 <= c.maxop <= c.logsize && 1 <= c.layout.size <= Limit(c)
    ensures Initial(c, s, Home(c.layout, s.store.disk)) && CanRun(c, s, steps)
    ensures var t := After(c, s, steps);
            && IsActive(t, 0) && b in t.ops[0].unlogged && b !in t.lh
            && |t.ops[0].logged + {b}| <= c.maxop
            && LogWriteOutcome(c, |t.lh|, t.outstanding) == PanicTooBig
  {
    var k := c.layout.size - 1;
    s, b := FreshState(c), NewBlock(c, k);
    FreshInitial(c);
    var n, ops;
    steps, n, ops := FillTo(c, k);
    CanModify(c, After(c, s, steps), k, n, 0);
    RunMore(c, s, steps, Modify(0, b, []));
    steps := steps + [Modify(0, b, [])];
  }

  /** If the header or the log area can get full, some run logs a block of the transaction again
      and panics, although that takes no room and the operation stays within its budget. */
  lemma AbsorbedBlockPanics(c: Config) returns (s: State, steps: seq<Step>, b: int)
    requires 1 <= c.maxop <= c.logsize && 2 <= c.layout.size
    requires c.logsize <= Limit(c) || c.layout.size <= Limit(c) + 1
    ensures Initial(c, s, Home(c.layout, s.store.disk)) && CanRun(c, s, steps)
    ensures var t := After(c, s, steps);
            && IsActive(t, 0) && b in t.ops[0].unlogged && b in t.lh
            && |t.ops[0].logged + {b}| <= c.maxop
            && LogWriteOutcome(c, |t.lh|, t.outstanding) == PanicTooBig
  {
    var k, n, ops := Min(c.logsize, c.layout.size - 1), 0, [];
    s := FreshState(c);
    FreshInitial(c);
    steps, n, ops := FillTo(c, k);
    var t := After(c, s, steps);
    InvHolds(c, s, Home(c.layout, s.store.disk), steps);
    b := if k == Limit(c) then NewBlock(c, k - 1) else t.lh[0];
    StaysInBudget(ops[0].logged, b, c.maxop);
    CanModifyAgain(c, t, k, n, b);
    RunMore(c, s, steps, Modify(0, b, []));
    steps := steps + [Modify(0, b, [])];
  }

  lemma StaysInBudget(logged: set<int>, b: int, maxop: nat)
    requires |logged| < maxop || (|logged| <= maxop && b in logged)
    ensures |logged + {b}| <= maxop
  {
    if b in logged {
      assert logged + {b} == logged;
    }
  }
}
