/** Every run of the process table keeps the tree of processes, loses no exit, and frees each
    zombie once. */
module ProcSafety {
  import opened Proc

  // --- a step of one process that leaves the tree alone -------------------------------------------

  lemma ForkMove(st: seq<PState>, parent: seq<int>, pc: seq<Pc>, p: int, st1: PState, pc1: Pc)
    requires ForkInv(st, parent, pc) && 0 <= p < |st| && (st[p] == Used <==> st1 == Used)
    requires Filling(pc1) <==> Filling(pc[p])
    requires Filling(pc1) ==> pc1.np == pc[p].np && pc1.ForkReady? == pc[p].ForkReady?
    ensures ForkInv(st[p := st1], parent, pc[p := pc1])
  {
    var pc' := pc[p := pc1];
    forall t | 0 <= t < |pc| ensures FillAt(st[p := st1], parent, pc'[t], t) {
      assert FillAt(st, parent, pc[t], t);
    }
  }

  predicate PastUsed(st: PState) {
    st != Unused && st != Used
  }

  lemma TreeMove(init: int, st: seq<PState>, parent: seq<int>, pc: seq<Pc>, p: int, st1: PState, pc1: Pc)
    requires TreeInv(init, st, parent, pc) && 0 <= p < |st|
    requires st1 == st[p] || (PastUsed(st[p]) && PastUsed(st1))
    requires Alive(st1) || !Alive(st[p]) || NotChild(parent, p, |st|)
    requires p == init ==> Alive(st1) && !Exiting(pc1)
    requires NotChild(parent, p, Cleared(pc1, |st|))
    ensures TreeInv(init, st[p := st1], parent, pc[p := pc1])
  {
  }

  /** If init was about to be woken, it still is, or it is awake. */
  predicate InitSeen(init: int, st: seq<PState>, pc: seq<Pc>, waitLock: int, st': seq<PState>, pc': seq<Pc>,
                     waitLock': int)
    requires |pc| == |st| && |st'| == |st| && |pc'| == |st| && 0 <= init < |st|
  {
    WakingInit(init, pc, waitLock) ==>
      WakingInit(init, pc', waitLock') || Looked(st'[init], pc'[init], |st|) <= 0
  }

  lemma SleepMove(init: int, st: seq<PState>, parent: seq<int>, pc: seq<Pc>, waitLock: int, p: int, st1: PState,
                  pc1: Pc, waitLock1: int)
    requires SleepInv(init, st, parent, pc, waitLock) && 0 <= init < |st| && 0 <= p < |st|
    requires st1 == Zombie ==> st[p] == Zombie
    requires Looked(st1, pc1, |st|) <= Looked(st[p], pc[p], |st|) || NoZombie(st, parent, p, Looked(st1, pc1, |st|))
    requires InitSeen(init, st, pc, waitLock, st[p := st1], pc[p := pc1], waitLock1)
    ensures SleepInv(init, st[p := st1], parent, pc[p := pc1], waitLock1)
  {
    var st', pc' := st[p := st1], pc[p := pc1];
    forall q | 0 <= q < |st|
      ensures NoZombie(st', parent, q, Looked(st'[q], pc'[q], |st|)) || (q == init && WakingInit(init, pc', waitLock1))
    {
      assert NoZombie(st, parent, q, Looked(st[q], pc[q], |st|)) || (q == init && WakingInit(init, pc, waitLock));
    }
  }

  lemma WokenMove(st: seq<PState>, parent: seq<int>, pc: seq<Pc>, p: int, st1: PState, pc1: Pc)
    requires WokenInv(st, parent, pc) && 0 <= p < |st| && parent[p] != p
    requires 0 <= parent[p] < |st| && Woken(pc1, parent[p]) ==> Looked(st[parent[p]], pc[parent[p]], |st|) <= 0
    requires Looked(st1, pc1, |st|) <= 0 || Looked(st[p], pc[p], |st|) > 0
          || forall h :: 0 <= h < |st| && h != p ==> !Woken(pc[h], p)
    ensures WokenInv(st[p := st1], parent, pc[p := pc1])
  {
  }

  lemma PidMove(st: seq<PState>, pid: seq<int>, nextPid: int, exited: seq<int>, reaped: seq<int>, p: int, st1: PState)
    requires PidInv(st, pid, nextPid, exited, reaped) && 0 <= p < |st|
    requires (st[p] == Unused <==> st1 == Unused) && (st[p] == Zombie <==> st1 == Zombie)
    ensures PidInv(st[p := st1], pid, nextPid, exited, reaped)
  {
    var st' := st[p := st1];
    forall e | e in exited ensures e in reaped || exists x :: 0 <= x < |st'| && st'[x] == Zombie && pid[x] == e {
      if e !in reaped {
        var x :| 0 <= x < |st| && st[x] == Zombie && pid[x] == e;
        assert st'[x] == Zombie;
      }
    }
  }

  /** The step wakes the sleeper that it looks at. */
  predicate Wakes(s: State, step: Step)
    requires Enabled(s, step)
  {
    && step.WakeStep?
    && var p, j := step.p, s.pc[step.p].j;
    j < |s.st| && j != p && s.st[j] == Sleeping && s.chan[j] == Target(s, p)
  }

  /** The step changes no parent, and the state and program point of process `p` only. */
  predicate Solo(s: State, step: Step)
    requires Enabled(s, step)
  {
    && !step.Fork? && !step.ForkFail? && !step.ForkParent? && !step.ForkRun? && !Wakes(s, step) && !Reaps(s, step)
    && (step.ReparentStep? ==> s.pc[step.p].i == |s.st| || s.parent[s.pc[step.p].i] != step.p)
  }

  lemma SoloShape(s: State, step: Step)
    requires Enabled(s, step) && Solo(s, step)
    ensures var p, s' := step.p, Do(s, step);
            && s'.init == s.init && s'.parent == s.parent && |s'.st| == |s.st| && |s'.pc| == |s.pc|
            && s'.st == s.st[p := s'.st[p]] && s'.pc == s.pc[p := s'.pc[p]]
  {
  }

  lemma ForkSolo(s: State, step: Step)
    requires Enabled(s, step) && Solo(s, step) && LocalAt(s, step.p) && ForkInv(s.st, s.parent, s.pc)
    ensures ForkInv(Do(s, step).st, Do(s, step).parent, Do(s, step).pc)
  {
    SoloShape(s, step);
    ForkMove(s.st, s.parent, s.pc, step.p, Do(s, step).st[step.p], Do(s, step).pc[step.p]);
  }

  lemma TreeSoloFacts(s: State, step: Step)
    requires Enabled(s, step) && Solo(s, step) && LocalAt(s, step.p)
    requires step.p == s.init ==> Alive(s.st[step.p]) && !Exiting(s.pc[step.p])
    requires NotChild(s.parent, step.p, Cleared(s.pc[step.p], |s.st|))
    ensures var p, st1, pc1 := step.p, Do(s, step).st[step.p], Do(s, step).pc[step.p];
            && (st1 == s.st[p] || (PastUsed(s.st[p]) && PastUsed(st1)))
            && (Alive(st1) || !Alive(s.st[p]) || NotChild(s.parent, p, |s.st|))
            && (p == s.init ==> Alive(st1) && !Exiting(pc1))
            && NotChild(s.parent, p, Cleared(pc1, |s.st|))
  {
    SoloShape(s, step);
  }

  lemma TreeSolo(s: State, step: Step)
    requires Enabled(s, step) && Solo(s, step) && LocalAt(s, step.p) && TreeInv(s.init, s.st, s.parent, s.pc)
    ensures TreeInv(Do(s, step).init, Do(s, step).st, Do(s, step).parent, Do(s, step).pc)
  {
    SoloShape(s, step);
    TreeSoloFacts(s, step);
    TreeMove(s.init, s.st, s.parent, s.pc, step.p, Do(s, step).st[step.p], Do(s, step).pc[step.p]);
  }

  /** What the invariants say about the holder of wait_lock, for process `p`. */
  predicate HolderAt(s: State, p: int)
    requires Shaped(s) && Valid(s, p)
  {
    (s.waitLock == NONE || Valid(s, s.waitLock)) && (HoldsWait(s.pc[p]) <==> s.waitLock == p)
  }

  /** The parent of `p`, if it has one, knows about no slot yet. */
  predicate ParentAwake(s: State, p: int)
    requires Shaped(s) && Valid(s, p)
  {
    Valid(s, s.parent[p]) ==> Looked(s.st[s.parent[p]], s.pc[s.parent[p]], |s.st|) <= 0
  }

  /** The process that the waker is at, if it is the one to be woken, is awake. */
  predicate PassedOk(s: State, step: Step)
    requires Enabled(s, step)
  {
    step.WakeStep? ==>
      && (s.pc[step.p].WakeInit? && s.pc[step.p].j == s.init ==> Looked(s.st[s.init], s.pc[s.init], |s.st|) <= 0)
      && (s.pc[step.p].WakeParent? && s.pc[step.p].j == s.parent[step.p] ==> ParentAwake(s, step.p))
  }

  lemma InitSeenSolo(s: State, step: Step)
    requires Enabled(s, step) && Solo(s, step) && LocalAt(s, step.p) && HolderAt(s, step.p)
    requires step.p == s.init ==> !Exiting(s.pc[step.p])
    requires PassedOk(s, step)
    ensures var s' := Do(s, step);
            && |s'.st| == |s.st| && |s'.pc| == |s.st|
            && InitSeen(s.init, s.st, s.pc, s.waitLock, s'.st, s'.pc, s'.waitLock)
  {
    SoloShape(s, step);
  }

  lemma LookedSolo(s: State, step: Step)
    requires Enabled(s, step) && Solo(s, step) && LocalAt(s, step.p)
    requires step.ScanStep? ==> NoZombie(s.st, s.parent, step.p, Looked(s.st[step.p], s.pc[step.p], |s.st|))
    ensures var p, st1, pc1 := step.p, Do(s, step).st[step.p], Do(s, step).pc[step.p];
            || Looked(st1, pc1, |s.st|) <= Looked(s.st[p], s.pc[p], |s.st|)
            || (step.ScanStep? && NoZombie(s.st, s.parent, p, Looked(st1, pc1, |s.st|)))
  {
  }

  lemma SleepSolo(s: State, step: Step)
    requires Enabled(s, step) && Solo(s, step) && LocalAt(s, step.p) && HolderAt(s, step.p) && !step.Die?
    requires step.p == s.init ==> !Exiting(s.pc[step.p])
    requires PassedOk(s, step)
    requires SleepInv(s.init, s.st, s.parent, s.pc, s.waitLock)
    ensures SleepInv(Do(s, step).init, Do(s, step).st, Do(s, step).parent, Do(s, step).pc, Do(s, step).waitLock)
  {
    SoloShape(s, step);
    InitSeenSolo(s, step);
    LookedSolo(s, step);
    var p, s' := step.p, Do(s, step);
    SleepMove(s.init, s.st, s.parent, s.pc, s.waitLock, p, s'.st[p], s'.pc[p], s'.waitLock);
  }

  lemma WokenSoloFacts(s: State, step: Step)
    requires Enabled(s, step) && Solo(s, step) && LocalAt(s, step.p) && s.parent[step.p] < |s.st|
    requires PassedOk(s, step)
    ensures var p, st1, pc1 := step.p, Do(s, step).st[step.p], Do(s, step).pc[step.p];
            && (Woken(pc1, s.parent[p]) ==> ParentAwake(s, p) || Woken(s.pc[p], s.parent[p]))
            && (Looked(st1, pc1, |s.st|) <= 0 || Looked(s.st[p], s.pc[p], |s.st|) > 0 || step.ScanStep?)
  {
  }

  lemma WokenSolo(s: State, step: Step)
    requires Enabled(s, step) && Solo(s, step) && LocalAt(s, step.p) && WaitLockInv(s.pc, s.waitLock)
    requires s.parent[step.p] < |s.st| && s.parent[step.p] != step.p
    requires PassedOk(s, step)
    requires WokenInv(s.st, s.parent, s.pc)
    ensures WokenInv(Do(s, step).st, Do(s, step).parent, Do(s, step).pc)
  {
    SoloShape(s, step);
    WokenSoloFacts(s, step);
    WokenMove(s.st, s.parent, s.pc, step.p, Do(s, step).st[step.p], Do(s, step).pc[step.p]);
  }

  lemma PidSolo(s: State, step: Step)
    requires Enabled(s, step) && Solo(s, step) && LocalAt(s, step.p) && !step.Die?
    requires PidInv(s.st, s.pid, s.nextPid, s.exited, s.reaped)
    ensures var s' := Do(s, step); PidInv(s'.st, s'.pid, s'.nextPid, s'.exited, s'.reaped)
  {
    SoloShape(s, step);
    PidMove(s.st, s.pid, s.nextPid, s.exited, s.reaped, step.p, Do(s, step).st[step.p]);
  }

  // --- a wakeup that finds a sleeper ----------------------------------------------------------------

  /** The sleeper has been made runnable, and the waker has not moved yet. */
  function Roused(s: State, step: Step): State
    requires Enabled(s, step) && Wakes(s, step)
  {
    s.(st := s.st[s.pc[step.p].j := Runnable])
  }

  lemma WakeSplit(s: State, step: Step)
    requires Enabled(s, step) && Wakes(s, step) && LocalAt(s, step.p)
    ensures var m := Roused(s, step);
            Enabled(m, step) && Solo(m, step) && LocalAt(m, step.p) && Do(m, step) == Do(s, step)
  {
  }

  lemma RousedKeeps(s: State, step: Step)
    requires Enabled(s, step) && Wakes(s, step) && LocalAt(s, s.pc[step.p].j)
    requires ForkInv(s.st, s.parent, s.pc) && TreeInv(s.init, s.st, s.parent, s.pc)
    ensures var m := Roused(s, step); ForkInv(m.st, m.parent, m.pc) && TreeInv(m.init, m.st, m.parent, m.pc)
  {
    var j := s.pc[step.p].j;
    assert s.pc[j := s.pc[j]] == s.pc;
    ForkMove(s.st, s.parent, s.pc, j, Runnable, s.pc[j]);
    assert NotChild(s.parent, j, Cleared(s.pc[j], |s.st|));
    TreeMove(s.init, s.st, s.parent, s.pc, j, Runnable, s.pc[j]);
  }

  lemma RousedSleep(s: State, step: Step)
    requires Enabled(s, step) && Wakes(s, step) && LocalAt(s, s.pc[step.p].j)
             && s.parent[s.pc[step.p].j] != s.pc[step.p].j
    requires SleepInv(s.init, s.st, s.parent, s.pc, s.waitLock) && WokenInv(s.st, s.parent, s.pc)
    ensures var m := Roused(s, step);
            SleepInv(m.init, m.st, m.parent, m.pc, m.waitLock) && WokenInv(m.st, m.parent, m.pc)
  {
    var j := s.pc[step.p].j;
    assert s.pc[j := s.pc[j]] == s.pc;
    SleepMove(s.init, s.st, s.parent, s.pc, s.waitLock, j, Runnable, s.pc[j], s.waitLock);
    WokenMove(s.st, s.parent, s.pc, j, Runnable, s.pc[j]);
  }

  /** A process that the waker has passed without waking it is awake: it is not about to sleep,
      because its lock is free and wait_lock is the waker's. */
  lemma PassedAwake(s: State, step: Step)
    requires Enabled(s, step) && Solo(s, step) && step.WakeStep? && LocalAt(s, step.p)
    requires var j := s.pc[step.p].j;
             j < |s.st| && j != step.p && Target(s, step.p) == j && LocalAt(s, j) && HolderAt(s, j)
               && HolderAt(s, step.p)
    ensures Looked(s.st[s.pc[step.p].j], s.pc[s.pc[step.p].j], |s.st|) <= 0
  {
  }

  // --- fork -----------------------------------------------------------------------------------------------

  lemma ForkNew(st: seq<PState>, parent: seq<int>, pc: seq<Pc>, p: int, x: int)
    requires ForkInv(st, parent, pc) && 0 <= p < |st| && 0 <= x < |st| && p != x
    requires st[x] == Unused && parent[x] == NONE && !Filling(pc[p])
    ensures ForkInv(st[x := Used], parent, pc[p := Alloced(x)])
  {
    var pc' := pc[p := Alloced(x)];
    forall t | 0 <= t < |pc| ensures FillAt(st[x := Used], parent, pc'[t], t)
        && (t != p && Filling(pc[t]) ==> pc[t].np != x) {
      assert FillAt(st, parent, pc[t], t);
    }
  }

  /** The slot that `p` was filling is no longer USED. */
  lemma ForkEnds(st: seq<PState>, parent: seq<int>, pc: seq<Pc>, p: int, x: int, st1: PState)
    requires ForkInv(st, parent, pc) && 0 <= p < |st| && 0 <= x < |st| && Filling(pc[p]) && pc[p].np == x
    ensures ForkInv(st[x := st1], parent, pc[p := Out])
  {
    var pc' := pc[p := Out];
    forall t | 0 <= t < |pc| ensures FillAt(st[x := st1], parent, pc'[t], t) {
      assert FillAt(st, parent, pc[t], t);
    }
  }

  lemma ForkLinks(st: seq<PState>, parent: seq<int>, pc: seq<Pc>, p: int, x: int)
    requires ForkInv(st, parent, pc) && 0 <= p < |st| && 0 <= x < |st| && pc[p] == ForkLink(x)
    ensures ForkInv(st, parent[x := p], pc[p := ForkReady(x)])
  {
    var pc' := pc[p := ForkReady(x)];
    assert FillAt(st, parent, pc[p], p);
    forall t | 0 <= t < |pc| ensures FillAt(st, parent[x := p], pc'[t], t) {
      assert FillAt(st, parent, pc[t], t);
    }
  }

  /** A parent that is not being set by a fork can change. */
  lemma ForkReparent(st: seq<PState>, parent: seq<int>, pc: seq<Pc>, c: int, q: int)
    requires ForkInv(st, parent, pc) && 0 <= c < |st|
    requires 0 <= parent[c] < |st| && !pc[parent[c]].ForkReady?
    ensures ForkInv(st, parent[c := q], pc)
  {
    forall t | 0 <= t < |pc| ensures FillAt(st, parent[c := q], pc[t], t) {
      assert FillAt(st, parent, pc[t], t);
    }
  }

  lemma TreeNew(init: int, st: seq<PState>, parent: seq<int>, pc: seq<Pc>, p: int, x: int)
    requires TreeInv(init, st, parent, pc) && 0 <= p < |st| && 0 <= x < |st| && st[x] == Unused
    ensures parent[x] == NONE && TreeInv(init, st[x := Used], parent, pc[p := Alloced(x)])
  {
  }

  lemma TreeDrop(init: int, st: seq<PState>, parent: seq<int>, pc: seq<Pc>, p: int, x: int)
    requires TreeInv(init, st, parent, pc) && 0 <= p < |st| && 0 <= x < |st| && st[x] == Used && parent[x] == NONE
    ensures TreeInv(init, st[x := Unused], parent, pc[p := Out])
  {
  }

  lemma TreeLinks(init: int, st: seq<PState>, parent: seq<int>, pc: seq<Pc>, p: int, x: int)
    requires TreeInv(init, st, parent, pc) && 0 <= p < |st| && 0 <= x < |st| && st[x] == Used && Alive(st[p])
    requires !Exiting(pc[p])
    ensures TreeInv(init, st, parent[x := p], pc[p := ForkReady(x)])
  {
    var parent', pc' := parent[x := p], pc[p := ForkReady(x)];
    forall q | 0 <= q < |st| ensures NotChild(parent', q, Cleared(pc'[q], |st|)) {
      assert NotChild(parent, q, Cleared(pc[q], |st|));
    }
  }

  lemma TreeRuns(init: int, st: seq<PState>, parent: seq<int>, pc: seq<Pc>, p: int, x: int)
    requires TreeInv(init, st, parent, pc) && 0 <= p < |st| && 0 <= x < |st| && st[x] == Used && parent[x] == p
    ensures TreeInv(init, st[x := Runnable], parent, pc[p := Out])
  {
  }

  lemma SleepLinks(init: int, st: seq<PState>, parent: seq<int>, pc: seq<Pc>, waitLock: int, x: int, p: int)
    requires SleepInv(init, st, parent, pc, waitLock) && 0 <= x < |st| && st[x] != Zombie
    ensures SleepInv(init, st, parent[x := p], pc, waitLock)
  {
    forall q | 0 <= q < |st|
      ensures NoZombie(st, parent[x := p], q, Looked(st[q], pc[q], |st|))
              || (q == init && WakingInit(init, pc, waitLock))
    {
      assert NoZombie(st, parent, q, Looked(st[q], pc[q], |st|)) || (q == init && WakingInit(init, pc, waitLock));
    }
  }

  lemma WokenLinks(st: seq<PState>, parent: seq<int>, pc: seq<Pc>, x: int, p: int)
    requires WokenInv(st, parent, pc) && 0 <= x < |st| && !Woken(pc[x], p)
    ensures WokenInv(st, parent[x := p], pc)
  {
  }

  lemma PidFork(st: seq<PState>, pid: seq<int>, nextPid: int, exited: seq<int>, reaped: seq<int>, x: int)
    requires PidInv(st, pid, nextPid, exited, reaped) && 0 <= x < |st| && st[x] == Unused
    ensures PidInv(st[x := Used], pid[x := nextPid], nextPid + 1, exited, reaped)
  {
    var st', pid' := st[x := Used], pid[x := nextPid];
    forall e | e in exited ensures e in reaped || exists y :: 0 <= y < |st'| && st'[y] == Zombie && pid'[y] == e {
      if e !in reaped {
        var y :| 0 <= y < |st| && st[y] == Zombie && pid[y] == e;
        assert st'[y] == Zombie && pid'[y] == e;
      }
    }
  }

  lemma PidDrop(st: seq<PState>, pid: seq<int>, nextPid: int, exited: seq<int>, reaped: seq<int>, x: int)
    requires PidInv(st, pid, nextPid, exited, reaped) && 0 <= x < |st| && st[x] == Used
    ensures PidInv(st[x := Unused], pid[x := 0], nextPid, exited, reaped)
  {
    var st', pid' := st[x := Unused], pid[x := 0];
    forall e | e in exited ensures e in reaped || exists y :: 0 <= y < |st'| && st'[y] == Zombie && pid'[y] == e {
      if e !in reaped {
        var y :| 0 <= y < |st| && st[y] == Zombie && pid[y] == e;
        assert st'[y] == Zombie && pid'[y] == e;
      }
    }
  }

  // --- exit and wait -----------------------------------------------------------------------------------------

  lemma TreeReparent(init: int, st: seq<PState>, parent: seq<int>, pc: seq<Pc>, p: int, c: int)
    requires TreeInv(init, st, parent, pc) && 0 <= p < |st| && 0 <= c < |st| && parent[c] == p && pc[p] == Reparent(c)
    ensures c != init && TreeInv(init, st, parent[c := init], pc[p := WakeInit(c, 0)])
  {
    var parent', pc' := parent[c := init], pc[p := WakeInit(c, 0)];
    forall q | 0 <= q < |st| ensures NotChild(parent', q, Cleared(pc'[q], |st|)) {
      assert NotChild(parent, q, Cleared(pc[q], |st|));
    }
  }

  lemma SleepReparent(init: int, st: seq<PState>, parent: seq<int>, pc: seq<Pc>, p: int, c: int)
    requires SleepInv(init, st, parent, pc, p) && 0 <= p < |st| && 0 <= c < |st| && 0 <= init && pc[p] == Reparent(c)
    ensures SleepInv(init, st, parent[c := init], pc[p := WakeInit(c, 0)], p)
  {
    var parent', pc' := parent[c := init], pc[p := WakeInit(c, 0)];
    forall q | 0 <= q < |st| ensures NoZombie(st, parent', q, Looked(st[q], pc'[q], |st|)) || q == init {
      assert NoZombie(st, parent, q, Looked(st[q], pc[q], |st|)) || q == init;
    }
  }

  /** A process that becomes a zombie has a parent that is awake. */
  lemma SleepDie(init: int, st: seq<PState>, parent: seq<int>, pc: seq<Pc>, waitLock: int, p: int)
    requires SleepInv(init, st, parent, pc, waitLock) && WokenInv(st, parent, pc) && 0 <= p < |st| && pc[p] == Dying
             && waitLock == p
    requires 0 <= parent[p] < |st|
    ensures SleepInv(init, st[p := Zombie], parent, pc[p := Dead], waitLock)
  {
    var st', pc' := st[p := Zombie], pc[p := Dead];
    assert Woken(pc[p], parent[p]);
    forall q | 0 <= q < |st| ensures NoZombie(st', parent, q, Looked(st'[q], pc'[q], |st|)) {
      assert NoZombie(st, parent, q, Looked(st[q], pc[q], |st|));
    }
  }

  lemma PidDie(st: seq<PState>, pid: seq<int>, nextPid: int, exited: seq<int>, reaped: seq<int>, p: int)
    requires PidInv(st, pid, nextPid, exited, reaped) && 0 <= p < |st| && Alive(st[p])
    ensures PidInv(st[p := Zombie], pid, nextPid, exited + [pid[p]], reaped)
  {
    var st', exited' := st[p := Zombie], exited + [pid[p]];
    assert pid[p] !in exited;
    assert st'[p] == Zombie;
    forall e | e in exited' ensures 0 < e < nextPid
        && (e in reaped || exists y :: 0 <= y < |st'| && st'[y] == Zombie && pid[y] == e) {
      if e in exited && e !in reaped {
        var y :| 0 <= y < |st| && st[y] == Zombie && pid[y] == e;
        assert st'[y] == Zombie && pid[y] == e;
      }
    }
  }

  lemma ForkReap(st: seq<PState>, parent: seq<int>, pc: seq<Pc>, p: int, c: int)
    requires ForkInv(st, parent, pc) && 0 <= p < |st| && 0 <= c < |st| && st[c] == Zombie && !Filling(pc[p])
             && !Filling(pc[c])
    ensures ForkInv(st[c := Unused], parent[c := NONE], pc[c := Out][p := Out])
  {
    var pc' := pc[c := Out][p := Out];
    forall t | 0 <= t < |pc| ensures FillAt(st[c := Unused], parent[c := NONE], pc'[t], t) {
      assert FillAt(st, parent, pc[t], t);
    }
  }

  lemma TreeReap(init: int, st: seq<PState>, parent: seq<int>, pc: seq<Pc>, p: int, c: int)
    requires TreeInv(init, st, parent, pc) && 0 <= p < |st| && 0 <= c < |st| && st[c] == Zombie
    ensures TreeInv(init, st[c := Unused], parent[c := NONE], pc[c := Out][p := Out])
  {
    var parent', pc' := parent[c := NONE], pc[c := Out][p := Out];
    forall q | 0 <= q < |st| ensures NotChild(parent', q, Cleared(pc'[q], |st|)) {
      assert NotChild(parent, q, Cleared(pc[q], |st|));
    }
  }

  lemma SleepReap(init: int, st: seq<PState>, parent: seq<int>, pc: seq<Pc>, p: int, c: int)
    requires SleepInv(init, st, parent, pc, p) && 0 <= p < |st| && 0 <= c < |st| && st[c] == Zombie && pc[p].Scan?
    ensures SleepInv(init, st[c := Unused], parent[c := NONE], pc[c := Out][p := Out], NONE)
  {
    var st', parent', pc' := st[c := Unused], parent[c := NONE], pc[c := Out][p := Out];
    forall q | 0 <= q < |st| ensures NoZombie(st', parent', q, Looked(st'[q], pc'[q], |st|)) {
      assert NoZombie(st, parent, q, Looked(st[q], pc[q], |st|));
    }
  }

  lemma WokenReap(st: seq<PState>, parent: seq<int>, pc: seq<Pc>, p: int, c: int)
    requires WokenInv(st, parent, pc) && 0 <= p < |st| && 0 <= c < |st|
    ensures WokenInv(st[c := Unused], parent[c := NONE], pc[c := Out][p := Out])
  {
  }

  lemma PidReap(st: seq<PState>, pid: seq<int>, nextPid: int, exited: seq<int>, reaped: seq<int>, c: int)
    requires PidInv(st, pid, nextPid, exited, reaped) && 0 <= c < |st| && st[c] == Zombie
    ensures PidInv(st[c := Unused], pid[c := 0], nextPid, exited, reaped + [pid[c]])
  {
    var st', pid', reaped' := st[c := Unused], pid[c := 0], reaped + [pid[c]];
    assert pid[c] !in reaped && pid[c] in exited;
    forall e | e in exited ensures e in reaped' || exists y :: 0 <= y < |st'| && st'[y] == Zombie && pid'[y] == e {
      if e !in reaped' {
        var y :| 0 <= y < |st| && st[y] == Zombie && pid[y] == e;
        assert st'[y] == Zombie && pid'[y] == e;
      }
    }
  }

  // --- every step keeps the tree --------------------------------------------------------------------------------

  ghost predicate TreePart(s: State) {
    && ForkInv(s.st, s.parent, s.pc)
    && TreeInv(s.init, s.st, s.parent, s.pc)
    && SleepInv(s.init, s.st, s.parent, s.pc, s.waitLock)
    && WokenInv(s.st, s.parent, s.pc)
  }

  ghost predicate PidPart(s: State) {
    PidInv(s.st, s.pid, s.nextPid, s.exited, s.reaped)
  }

  lemma PassedSolo(s: State, step: Step)
    requires LocalInv(s) && WaitLockInv(s.pc, s.waitLock) && TreeInv(s.init, s.st, s.parent, s.pc)
    requires Enabled(s, step) && Solo(s, step)
    ensures PassedOk(s, step)
  {
    var p := step.p;
    assert LocalAt(s, p);
    if step.WakeStep? && s.pc[p].j < |s.st| && Target(s, p) == s.pc[p].j {
      assert LocalAt(s, s.pc[p].j);
      PassedAwake(s, step);
    }
  }

  lemma SoloKeeps(s: State, step: Step)
    requires Enabled(s, step) && Solo(s, step) && PassedOk(s, step) && LocalAt(s, step.p)
    requires WaitLockInv(s.pc, s.waitLock) && TreePart(s)
    ensures TreePart(Do(s, step))
  {
    ForkSolo(s, step);
    TreeSolo(s, step);
    WokenSolo(s, step);
    if step.Die? {
      SleepDie(s.init, s.st, s.parent, s.pc, s.waitLock, step.p);
    } else {
      SleepSolo(s, step);
    }
  }

  lemma WakesKeeps(s: State, step: Step)
    requires LocalInv(s) && WaitLockInv(s.pc, s.waitLock) && TreePart(s) && Enabled(s, step) && Wakes(s, step)
    ensures TreePart(Do(s, step))
  {
    var m, j := Roused(s, step), s.pc[step.p].j;
    assert LocalAt(s, step.p) && LocalAt(s, j);
    RousedKeeps(s, step);
    RousedSleep(s, step);
    WakeSplit(s, step);
    SoloKeeps(m, step);
  }

  lemma ForkSleep(s: State, step: Step)
    requires Enabled(s, step) && LocalAt(s, step.p) && step.Fork? && LocalAt(s, step.child)
    requires SleepInv(s.init, s.st, s.parent, s.pc, s.waitLock) && WokenInv(s.st, s.parent, s.pc)
    requires s.parent[step.child] == NONE && s.parent[step.p] != step.p
    ensures var s' := Do(s, step);
            SleepInv(s'.init, s'.st, s'.parent, s'.pc, s'.waitLock) && WokenInv(s'.st, s'.parent, s'.pc)
  {
    var p, x := step.p, step.child;
    var st' := s.st[x := Used];
    assert s.pc[x := s.pc[x]] == s.pc && st'[p := st'[p]] == st';
    SleepMove(s.init, s.st, s.parent, s.pc, s.waitLock, x, Used, s.pc[x], s.waitLock);
    SleepMove(s.init, st', s.parent, s.pc, s.waitLock, p, st'[p], Alloced(x), s.waitLock);
    WokenMove(s.st, s.parent, s.pc, x, Used, s.pc[x]);
    WokenMove(st', s.parent, s.pc, p, st'[p], Alloced(x));
  }

  lemma ForkKeeps(s: State, step: Step)
    requires Enabled(s, step) && LocalAt(s, step.p) && TreePart(s) && step.Fork? && LocalAt(s, step.child)
    ensures TreePart(Do(s, step))
  {
    TreeNew(s.init, s.st, s.parent, s.pc, step.p, step.child);
    ForkNew(s.st, s.parent, s.pc, step.p, step.child);
    ForkSleep(s, step);
  }

  lemma ForkEndSleep(s: State, p: int, x: int, st1: PState)
    requires Shaped(s) && Valid(s, p) && Valid(s, x) && LocalAt(s, p) && LocalAt(s, x) && s.st[x] == Used
             && Filling(s.pc[p])
    requires SleepInv(s.init, s.st, s.parent, s.pc, s.waitLock) && WokenInv(s.st, s.parent, s.pc)
    requires s.parent[x] != x && s.parent[p] != p && (st1 == Unused || st1 == Runnable)
    ensures var st', pc' := s.st[x := st1], s.pc[p := Out];
            SleepInv(s.init, st', s.parent, pc', s.waitLock) && WokenInv(st', s.parent, pc')
  {
    var st' := s.st[x := st1];
    assert s.pc[x := s.pc[x]] == s.pc && st'[p := st'[p]] == st';
    SleepMove(s.init, s.st, s.parent, s.pc, s.waitLock, x, st1, s.pc[x], s.waitLock);
    SleepMove(s.init, st', s.parent, s.pc, s.waitLock, p, st'[p], Out, s.waitLock);
    WokenMove(s.st, s.parent, s.pc, x, st1, s.pc[x]);
    WokenMove(st', s.parent, s.pc, p, st'[p], Out);
  }

  lemma ForkEndKeeps(s: State, step: Step, st1: PState)
    requires Enabled(s, step) && LocalAt(s, step.p) && TreePart(s)
    requires (step.ForkFail? && st1 == Unused) || (step.ForkRun? && st1 == Runnable)
    requires LocalAt(s, s.pc[step.p].np)
    ensures TreePart(Do(s, step))
  {
    var p, x := step.p, s.pc[step.p].np;
    assert FillAt(s.st, s.parent, s.pc[p], p);
    ForkEnds(s.st, s.parent, s.pc, p, x, st1);
    if st1 == Unused {
      TreeDrop(s.init, s.st, s.parent, s.pc, p, x);
      assert s.parent[x := NONE] == s.parent;
    } else {
      TreeRuns(s.init, s.st, s.parent, s.pc, p, x);
    }
    ForkEndSleep(s, p, x, st1);
  }

  lemma ForkParentSleep(s: State, p: int, x: int)
    requires Shaped(s) && Valid(s, p) && Valid(s, x) && LocalAt(s, p) && LocalAt(s, x)
    requires s.pc[p] == ForkLink(x) && s.st[x] == Used && s.parent[x] == NONE && x != p && s.parent[p] != p
    requires SleepInv(s.init, s.st, s.parent, s.pc, s.waitLock) && WokenInv(s.st, s.parent, s.pc)
    ensures var parent', pc' := s.parent[x := p], s.pc[p := ForkReady(x)];
            SleepInv(s.init, s.st, parent', pc', s.waitLock) && WokenInv(s.st, parent', pc')
  {
    var parent' := s.parent[x := p];
    assert s.st[p := s.st[p]] == s.st;
    SleepLinks(s.init, s.st, s.parent, s.pc, s.waitLock, x, p);
    SleepMove(s.init, s.st, parent', s.pc, s.waitLock, p, s.st[p], ForkReady(x), s.waitLock);
    WokenLinks(s.st, s.parent, s.pc, x, p);
    WokenMove(s.st, parent', s.pc, p, s.st[p], ForkReady(x));
  }

  lemma ForkParentKeeps(s: State, step: Step)
    requires Enabled(s, step) && LocalAt(s, step.p) && TreePart(s) && step.ForkParent? && LocalAt(s, s.pc[step.p].np)
    ensures TreePart(Do(s, step))
  {
    var p, x := step.p, s.pc[step.p].np;
    assert FillAt(s.st, s.parent, s.pc[p], p);
    ForkLinks(s.st, s.parent, s.pc, p, x);
    TreeLinks(s.init, s.st, s.parent, s.pc, p, x);
    ForkParentSleep(s, p, x);
  }

  lemma ReparentSleep(s: State, p: int, c: int)
    requires Shaped(s) && Valid(s, p) && Valid(s, c) && LocalAt(s, p) && TreePart(s) && WaitLockInv(s.pc, s.waitLock)
    requires s.pc[p] == Reparent(c) && s.parent[c] == p
    ensures var parent', pc' := s.parent[c := s.init], s.pc[p := WakeInit(c, 0)];
            SleepInv(s.init, s.st, parent', pc', s.waitLock) && WokenInv(s.st, parent', pc')
  {
    var parent' := s.parent[c := s.init];
    assert s.st[p := s.st[p]] == s.st;
    SleepReparent(s.init, s.st, s.parent, s.pc, p, c);
    WokenLinks(s.st, s.parent, s.pc, c, s.init);
    WokenMove(s.st, parent', s.pc, p, s.st[p], WakeInit(c, 0));
  }

  lemma ReparentKeeps(s: State, step: Step)
    requires Enabled(s, step) && LocalAt(s, step.p) && TreePart(s) && WaitLockInv(s.pc, s.waitLock)
    requires step.ReparentStep? && s.pc[step.p].i < |s.st| && s.parent[s.pc[step.p].i] == step.p
    ensures TreePart(Do(s, step))
  {
    var p, c := step.p, s.pc[step.p].i;
    assert s.st[p := s.st[p]] == s.st;
    TreeReparent(s.init, s.st, s.parent, s.pc, p, c);
    ForkReparent(s.st, s.parent, s.pc, c, s.init);
    ForkMove(s.st, s.parent[c := s.init], s.pc, p, s.st[p], WakeInit(c, 0));
    ReparentSleep(s, p, c);
  }

  lemma ReapKeeps(s: State, step: Step)
    requires LocalInv(s) && Enabled(s, step) && TreePart(s) && WaitLockInv(s.pc, s.waitLock) && Reaps(s, step)
    ensures TreePart(Do(s, step))
  {
    var p, c := step.p, s.pc[step.p].i;
    assert LocalAt(s, p) && LocalAt(s, c);
    ForkReap(s.st, s.parent, s.pc, p, c);
    TreeReap(s.init, s.st, s.parent, s.pc, p, c);
    SleepReap(s.init, s.st, s.parent, s.pc, p, c);
    WokenReap(s.st, s.parent, s.pc, p, c);
  }

  lemma PidKeeps(s: State, step: Step)
    requires Enabled(s, step) && LocalAt(s, step.p) && PidPart(s) && FillAt(s.st, s.parent, s.pc[step.p], step.p)
    ensures PidPart(Do(s, step))
  {
    var p := step.p;
    if step.Fork? || step.ForkFail? || step.ForkRun? {
      PidForks(s, step);
    } else if step.Die? {
      PidDie(s.st, s.pid, s.nextPid, s.exited, s.reaped, p);
    } else if Reaps(s, step) {
      PidReap(s.st, s.pid, s.nextPid, s.exited, s.reaped, s.pc[p].i);
    } else if Wakes(s, step) {
      PidMove(s.st, s.pid, s.nextPid, s.exited, s.reaped, s.pc[p].j, Runnable);
    } else if Solo(s, step) {
      PidSolo(s, step);
    }
  }

  lemma PidForks(s: State, step: Step)
    requires Enabled(s, step) && PidPart(s) && FillAt(s.st, s.parent, s.pc[step.p], step.p)
    requires step.Fork? || step.ForkFail? || step.ForkRun?
    ensures PidPart(Do(s, step))
  {
    if step.Fork? {
      PidFork(s.st, s.pid, s.nextPid, s.exited, s.reaped, step.child);
    } else if step.ForkFail? {
      PidDrop(s.st, s.pid, s.nextPid, s.exited, s.reaped, s.pc[step.p].np);
    } else {
      PidMove(s.st, s.pid, s.nextPid, s.exited, s.reaped, s.pc[step.p].np, Runnable);
    }
  }

  lemma TreeKeeps(s: State, step: Step)
    requires Inv(s) && Enabled(s, step)
    ensures TreePart(Do(s, step))
  {
    var p := step.p;
    assert LocalAt(s, p);
    assert FillAt(s.st, s.parent, s.pc[p], p);
    if Solo(s, step) {
      PassedSolo(s, step);
      SoloKeeps(s, step);
    } else if Wakes(s, step) {
      WakesKeeps(s, step);
    } else if Reaps(s, step) {
      ReapKeeps(s, step);
    } else if step.Fork? {
      ForkKeeps(s, step);
    } else if step.ForkParent? {
      ForkParentKeeps(s, step);
    } else if step.ForkFail? {
      ForkEndKeeps(s, step, Unused);
    } else if step.ForkRun? {
      ForkEndKeeps(s, step, Runnable);
    } else {
      ReparentKeeps(s, step);
    }
  }

  lemma InvStep(s: State, step: Step)
    requires Inv(s) && Enabled(s, step)
    ensures Inv(Do(s, step))
  {
    assert LocalAt(s, step.p);
    LocalStep(s, step);
    LockStep(s, step);
    if step.ScanStep? {
      WaitLockScan(s, step);
    } else {
      WaitLockStep(s, step);
    }
    TreeKeeps(s, step);
    PidKeeps(s, step);
  }

  // --- every run -------------------------------------------------------------------------------------------------

  /** After `userinit`: init is runnable, and every other slot is unused. */
  ghost predicate Initial(s: State) {
    && Shaped(s) && s.waitLock == NONE && s.exited == [] && s.reaped == []
    && (forall x :: Valid(s, x) ==>
          && s.parent[x] == NONE && s.chan[x] == NONE && s.lock[x] == Free && s.pc[x] == Out
          && !s.onStack[x] && !s.leaving[x]
          && s.st[x] == if x == s.init then Runnable else Unused)
    && 0 < s.pid[s.init] < s.nextPid
  }

  ghost predicate CanRun(s: State, steps: seq<Step>)
    decreases |steps|, 0
  {
    steps != [] ==>
      var before := steps[..|steps| - 1];
      CanRun(s, before) && Enabled(After(s, before), steps[|steps| - 1])
  }

  ghost function After(s: State, steps: seq<Step>): State
    requires CanRun(s, steps)
    decreases |steps|, 1
  {
    if steps == [] then s
    else Do(After(s, steps[..|steps| - 1]), steps[|steps| - 1])
  }

  lemma InitialLocal(s: State)
    requires Initial(s)
    ensures LocalInv(s) && WaitLockInv(s.pc, s.waitLock) && LockInv(s.pc, s.lock) && ForkInv(s.st, s.parent, s.pc)
  {
  }

  lemma InitialTree(s: State)
    requires Initial(s)
    ensures TreeInv(s.init, s.st, s.parent, s.pc) && SleepInv(s.init, s.st, s.parent, s.pc, s.waitLock)
    ensures WokenInv(s.st, s.parent, s.pc)
  {
  }

  lemma InitialInv(s: State)
    requires Initial(s)
    ensures Inv(s)
  {
    InitialLocal(s);
    InitialTree(s);
  }

  lemma {:induction false} InvHolds(s: State, steps: seq<Step>)
    requires Initial(s) && CanRun(s, steps)
    ensures Inv(After(s, steps))
    decreases |steps|
  {
    if steps == [] {
      InitialInv(s);
    } else {
      InvHolds(s, steps[..|steps| - 1]);
      InvStep(After(s, steps[..|steps| - 1]), steps[|steps| - 1]);
    }
  }

  /** Process `p` is asleep in `wait`, or has released wait_lock in order to be. */
  predicate AsleepInWait(s: State, p: int)
    requires Shaped(s) && Valid(s, p)
  {
    s.pc[p].Dozing? || (s.st[p] == Sleeping && s.chan[p] == p)
  }

  /** No lost exit: when wait_lock is free, nobody asleep in `wait` has a zombie child. */
  lemma NoLostExit(s: State, steps: seq<Step>, p: int, c: int)
    requires Initial(s) && CanRun(s, steps)
    ensures var t := After(s, steps);
            Shaped(t) && (Valid(t, p) && Valid(t, c) && t.waitLock == NONE && AsleepInWait(t, p) && t.parent[c] == p
              ==> t.st[c] != Zombie)
  {
    InvHolds(s, steps);
    var t := After(s, steps);
    if Valid(t, p) && Valid(t, c) {
      NotMissed(t, p, c);
    }
  }

  lemma NotMissed(t: State, p: int, c: int)
    requires LocalInv(t) && SleepInv(t.init, t.st, t.parent, t.pc, t.waitLock) && Valid(t, p) && Valid(t, c)
    ensures t.waitLock == NONE && AsleepInWait(t, p) && t.parent[c] == p ==> t.st[c] != Zombie
  {
    assert LocalAt(t, p);
    assert NoZombie(t.st, t.parent, p, Looked(t.st[p], t.pc[p], |t.st|)) || WakingInit(t.init, t.pc, t.waitLock);
  }

  /** In every reachable state every process past USED other than init has a parent, which is
      neither unused nor a zombie. */
  lemma ParentsAlive(s: State, steps: seq<Step>, c: int)
    requires Initial(s) && CanRun(s, steps)
    ensures var t := After(s, steps);
            Shaped(t) && Alive(t.st[t.init]) &&
            (Valid(t, c) && PastUsed(t.st[c]) && c != t.init ==>
              Valid(t, t.parent[c]) && t.parent[c] != c && Alive(t.st[t.parent[c]]))
  {
    InvHolds(s, steps);
  }

  /** A zombie is freed only when it is off its kernel stack and nobody holds its lock, and its
      pid was never freed before. */
  lemma FreedOnceOffStack(s: State, steps: seq<Step>, step: Step)
    requires Initial(s) && CanRun(s, steps) && Enabled(After(s, steps), step) && Reaps(After(s, steps), step)
    ensures var t := After(s, steps);
            var c := t.pc[step.p].i;
            !t.onStack[c] && t.lock[c] == Free && t.pid[c] in t.exited && t.pid[c] !in t.reaped
  {
    InvHolds(s, steps);
    assert LocalAt(After(s, steps), After(s, steps).pc[step.p].i);
  }

  /** Every exit is either reaped, once, or still waiting in the table as a zombie. */
  lemma ExitsAccounted(s: State, steps: seq<Step>, pid: int)
    requires Initial(s) && CanRun(s, steps)
    ensures var t := After(s, steps);
            && Shaped(t) && Distinct(t.exited) && Distinct(t.reaped)
            && (pid in t.exited <==> pid in t.reaped || exists x :: Valid(t, x) && t.st[x] == Zombie && t.pid[x] == pid)
            && !(pid in t.reaped && exists x :: Valid(t, x) && t.st[x] == Zombie && t.pid[x] == pid)
  {
    InvHolds(s, steps);
    Accounted(After(s, steps), pid);
  }

  lemma Accounted(t: State, pid: int)
    requires Shaped(t) && PidPart(t)
    ensures pid in t.exited <==> pid in t.reaped || exists x :: Valid(t, x) && t.st[x] == Zombie && t.pid[x] == pid
    ensures !(pid in t.reaped && exists x :: Valid(t, x) && t.st[x] == Zombie && t.pid[x] == pid)
  {
    if pid in t.exited && pid !in t.reaped {
      var x :| 0 <= x < |t.st| && t.st[x] == Zombie && t.pid[x] == pid;
      assert Valid(t, x);
    }
  }

  /** A zombie stays a zombie until its parent frees it: it never runs again. */
  lemma ZombieStays(s: State, steps: seq<Step>, step: Step, c: int)
    requires Initial(s) && CanRun(s, steps) && Enabled(After(s, steps), step)
    requires Valid(After(s, steps), c) && After(s, steps).st[c] == Zombie
    ensures var t, t' := After(s, steps), Do(After(s, steps), step);
            if Reaps(t, step) && t.pc[step.p].i == c then t'.st[c] == Unused && t.parent[c] == step.p
              else t'.st[c] == Zombie
  {
    InvHolds(s, steps);
    StaysZombie(After(s, steps), step, c);
  }

  lemma StaysZombie(t: State, step: Step, c: int)
    requires Enabled(t, step) && Valid(t, c) && t.st[c] == Zombie && LocalInv(t)
             && FillAt(t.st, t.parent, t.pc[step.p], step.p)
    ensures var t' := Do(t, step);
            if Reaps(t, step) && t.pc[step.p].i == c then t'.st[c] == Unused && t.parent[c] == step.p
              else t'.st[c] == Zombie
  {
    assert LocalAt(t, step.p) && LocalAt(t, c);
    if CpuStep(step) {
      ZombieIdle(t, step, c);
    } else if step.ScanStep? {
      ZombieScanned(t, step, c);
    } else {
      ZombieUntouched(t, step, c);
    }
  }

  lemma ZombieIdle(t: State, step: Step, c: int)
    requires Enabled(t, step) && CpuStep(step) && Valid(t, c) && t.st[c] == Zombie && LocalAt(t, step.p)
    ensures Do(t, step).st[c] == Zombie
  {
  }

  lemma ZombieScanned(t: State, step: Step, c: int)
    requires Enabled(t, step) && step.ScanStep? && Valid(t, c) && t.st[c] == Zombie
    ensures var t' := Do(t, step);
            if Reaps(t, step) && t.pc[step.p].i == c then t'.st[c] == Unused && t.parent[c] == step.p
              else t'.st[c] == Zombie
  {
  }

  lemma ZombieUntouched(t: State, step: Step, c: int)
    requires Enabled(t, step) && !CpuStep(step) && !step.ScanStep? && Valid(t, c) && t.st[c] == Zombie
    requires LocalAt(t, step.p) && FillAt(t.st, t.parent, t.pc[step.p], step.p)
    ensures Do(t, step).st[c] == Zombie
  {
  }

  /** `sched` never panics: the process holds its own lock and no other, and is not RUNNING. */
  lemma SchedSafe(s: State, steps: seq<Step>, p: int, x: int)
    requires Initial(s) && CanRun(s, steps) && Enabled(After(s, steps), SwitchOut(p)) && Valid(After(s, steps), x)
    ensures var t := After(s, steps);
            t.st[p] != Running && t.waitLock != p && (t.lock[x] == Thread(p) <==> x == p)
  {
    InvHolds(s, steps);
    LeavesClean(After(s, steps), p, x);
  }

  lemma LeavesClean(t: State, p: int, x: int)
    requires LocalInv(t) && LockInv(t.pc, t.lock) && WaitLockInv(t.pc, t.waitLock) && Enabled(t, SwitchOut(p))
             && Valid(t, x)
    ensures t.st[p] != Running && t.waitLock != p && (t.lock[x] == Thread(p) <==> x == p)
  {
    assert LocalAt(t, p);
  }

  // --- no deadlock ---------------------------------------------------------------------------------------------------

  /** The step of the holder of a process lock that brings the release nearer. */
  predicate Unlocks(s: State, step: Step, x: int)
    requires Shaped(s) && Valid(s, x)
  {
    || (s.lock[x] == Scheduler && step == SchedRelease(x))
    || (s.lock[x] == Thread(x) && (step == SwitchOut(x) || step == SleepCommit(x)))
    || (s.lock[x].Thread? && s.lock[x].t != x && step == ForkKeep(s.lock[x].t))
  }

  /** A process lock that somebody else holds is never held for long: its holder can go on. */
  lemma HolderGoesOn(s: State, x: int) returns (step: Step)
    requires LocalInv(s) && LockInv(s.pc, s.lock) && Valid(s, x) && s.lock[x] != Free && !HoldsWait(s.pc[x])
    requires forall t :: Valid(s, t) ==> FillAt(s.st, s.parent, s.pc[t], t)
    ensures Enabled(s, step) && Unlocks(s, step, x)
  {
    assert LocalAt(s, x);
    if s.lock[x] == Scheduler {
      step := SchedRelease(x);
    } else if s.lock[x] == Thread(x) {
      step := if s.leaving[x] then SwitchOut(x) else SleepCommit(x);
    } else {
      var t := s.lock[x].t;
      assert LocalAt(s, t);
      step := ForkKeep(t);
    }
  }

  /** The process whose lock the holder `h` of wait_lock needs next; `h` itself when it needs
      none or its own. */
  function Needed(s: State, h: int): int
    requires Shaped(s) && Valid(s, h)
  {
    match s.pc[h]
    case WakeInit(_, j) => if 0 <= j < |s.st| then j else h
    case WakeParent(j) => if 0 <= j < |s.st| then j else h
    case Scan(i, _) => if 0 <= i < |s.st| && s.parent[i] == h then i else h
    case _ => h
  }

  /** The step that process `h` takes next. */
  function NextStep(s: State, h: int): Step
    requires Shaped(s) && Valid(s, h)
  {
    match s.pc[h]
    case Reparent(_) => ReparentStep(h)
    case WakeInit(_, _) => WakeStep(h)
    case WakeParent(_) => WakeStep(h)
    case Dying => Die(h)
    case Dead => DieRelease(h)
    case Sleepy => SleepLock(h)
    case Committed => SleepRelease(h)
    case _ => ScanStep(h, true)
  }

  lemma NeededFree(s: State, h: int)
    requires Shaped(s) && Valid(s, h) && LocalAt(s, h) && HoldsWait(s.pc[h]) && OwnOrIdle(s.lock[h], h)
    requires Needed(s, h) != h ==> s.lock[Needed(s, h)] == Free
    ensures Enabled(s, NextStep(s, h))
  {
  }

  /** The holder of wait_lock can take its next step, or it waits for the lock of one process,
      and then the holder of that lock can go on without wait_lock. */
  lemma HolderProgress(s: State, h: int) returns (step: Step)
    requires Inv(s) && s.waitLock == h && h != NONE
    ensures Enabled(s, step) && (step == NextStep(s, h) || Unlocks(s, step, Needed(s, h)))
  {
    assert LocalAt(s, h);
    OwnLock(s, h);
    var x := Needed(s, h);
    if x == h || s.lock[x] == Free {
      NeededFree(s, h);
      step := NextStep(s, h);
    } else {
      step := HolderGoesOn(s, x);
    }
  }

  /** No deadlock on wait_lock in any reachable state. */
  lemma NoDeadlock(s: State, steps: seq<Step>)
    requires Initial(s) && CanRun(s, steps) && After(s, steps).waitLock != NONE
    ensures var t := After(s, steps);
            && Shaped(t) && Valid(t, t.waitLock)
            && exists step :: Enabled(t, step)
                 && (step == NextStep(t, t.waitLock) || Unlocks(t, step, Needed(t, t.waitLock)))
  {
    InvHolds(s, steps);
    var step := HolderProgress(After(s, steps), After(s, steps).waitLock);
  }
}
