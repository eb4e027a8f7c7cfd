/** Processes: fork, exit, wait, sleep, wakeup and kill, one step for every point where another
    CPU can get in between.

    A process has a slot in the table.  It acts while it is on its kernel stack; giving up the CPU
    hands its own lock to the scheduler, which releases it once the process has left the stack.
    Steps that only hold one process lock for a moment are single steps. */
module Proc {
  datatype PState = Unused | Used | Sleeping | Runnable | Running | Zombie

  datatype Lock = Free | Thread(t: int) | Scheduler

  /** Where a process is.  `WaitRetry` is also the point after the sleep in `wait`. */
  datatype Pc =
    | Out
    | Alloced(np: int) | ForkLink(np: int) | ForkReady(np: int)
    | Reparent(i: int) | WakeInit(i: int, j: int) | WakeParent(j: int) | Dying | Dead | Gone
    | Scan(i: int, kids: bool) | Sleepy | Committed | Dozing | WaitRetry

  const NONE := -1
  const OTHER := -2

  datatype State = State(
    init: int,
    st: seq<PState>,
    parent: seq<int>,
    chan: seq<int>,        // NONE, OTHER, or the process whose address is slept on
    killed: seq<bool>,
    pid: seq<int>,
    lock: seq<Lock>,
    pc: seq<Pc>,
    onStack: seq<bool>,    // the CPU is on this process's kernel stack
    leaving: seq<bool>,    // in sched, before the switch
    waitLock: int,         // the holder of wait_lock, or NONE
    nextPid: int,
    exited: seq<int>,      // history: the pids that became zombies
    reaped: seq<int>)      // history: the pids that wait has freed

  datatype Step =
    | Dispatch(p: int) | SwitchOut(p: int) | SchedRelease(p: int)
    | Preempt(p: int) | SleepOther(p: int) | WakeOther(p: int) | Kill(p: int)
    | Fork(p: int, child: int) | ForkFail(p: int) | ForkKeep(p: int) | ForkParent(p: int) | ForkRun(p: int)
    | ExitBegin(p: int) | ReparentStep(p: int) | WakeStep(p: int) | Die(p: int) | DieRelease(p: int)
    | WaitBegin(p: int) | ScanStep(p: int, copied: bool)
    | SleepLock(p: int) | SleepRelease(p: int) | SleepCommit(p: int)

  predicate Shaped(s: State) {
    && 0 <= s.init < |s.st|
    && |s.parent| == |s.st| && |s.chan| == |s.st| && |s.killed| == |s.st| && |s.pid| == |s.st|
    && |s.lock| == |s.st| && |s.pc| == |s.st| && |s.onStack| == |s.st| && |s.leaving| == |s.st|
  }

  predicate Valid(s: State, p: int) {
    0 <= p < |s.st|
  }

  /** The process can execute its next instruction. */
  predicate Acts(s: State, p: int)
    requires Shaped(s)
  {
    Valid(s, p) && s.onStack[p] && !s.leaving[p]
  }

  /** Points where a timer interrupt may take the CPU away: no spinlock is held. */
  predicate Parked(pc: Pc) {
    pc.Out? || pc.ForkLink? || pc.ForkReady? || pc.WaitRetry?
  }

  /** The channel that the process is waking. */
  function Target(s: State, p: int): int
    requires Shaped(s) && Valid(s, p)
  {
    if s.pc[p].WakeInit? then s.init else s.parent[p]
  }

  /** The process is in fork, and has taken slot `np`. */
  predicate Filling(pc: Pc) {
    pc.Alloced? || pc.ForkLink? || pc.ForkReady?
  }

  predicate Enabled(s: State, step: Step) {
    && Shaped(s) && Valid(s, step.p)
    && var p := step.p;
    match step
    case Dispatch(_) => s.st[p] == Runnable && s.lock[p] == Free
    case SwitchOut(_) => s.onStack[p] && s.leaving[p]
    case SchedRelease(_) => s.lock[p] == Scheduler
    case Preempt(_) => Acts(s, p) && Parked(s.pc[p]) && s.lock[p] == Free
    case SleepOther(_) => Acts(s, p) && s.pc[p] == Out && s.lock[p] == Free
    case WakeOther(_) => s.lock[p] == Free && s.st[p] == Sleeping && s.chan[p] == OTHER
    case Kill(_) => s.lock[p] == Free
    case Fork(_, x) => Acts(s, p) && s.pc[p] == Out && Valid(s, x) && s.lock[x] == Free && s.st[x] == Unused
    case ForkFail(_) => Acts(s, p) && s.pc[p].Alloced? && Valid(s, s.pc[p].np)
    case ForkKeep(_) => Acts(s, p) && s.pc[p].Alloced? && Valid(s, s.pc[p].np)
    case ForkParent(_) => Acts(s, p) && s.pc[p].ForkLink? && Valid(s, s.pc[p].np) && s.waitLock == NONE
    case ForkRun(_) => Acts(s, p) && s.pc[p].ForkReady? && Valid(s, s.pc[p].np) && s.lock[s.pc[p].np] == Free
    case ExitBegin(_) => Acts(s, p) && s.pc[p] == Out && p != s.init && s.waitLock == NONE
    case ReparentStep(_) => Acts(s, p) && s.pc[p].Reparent? && 0 <= s.pc[p].i <= |s.st|
    case WakeStep(_) =>
      && Acts(s, p) && (s.pc[p].WakeInit? || s.pc[p].WakeParent?) && 0 <= s.pc[p].j <= |s.st|
      && (s.pc[p].j < |s.st| && s.pc[p].j != p ==> s.lock[s.pc[p].j] == Free)
    case Die(_) => Acts(s, p) && s.pc[p] == Dying && s.lock[p] == Free
    case DieRelease(_) => Acts(s, p) && s.pc[p] == Dead
    case WaitBegin(_) => Acts(s, p) && (s.pc[p] == Out || s.pc[p] == WaitRetry) && s.waitLock == NONE
    case ScanStep(_, _) =>
      && Acts(s, p) && s.pc[p].Scan? && 0 <= s.pc[p].i <= |s.st|
      && var i := s.pc[p].i;
      if i < |s.st| then s.parent[i] == p ==> s.lock[i] == Free else s.lock[p] == Free
    case SleepLock(_) => Acts(s, p) && s.pc[p] == Sleepy && s.lock[p] == Free
    case SleepRelease(_) => Acts(s, p) && s.pc[p] == Committed
    case SleepCommit(_) => Acts(s, p) && s.pc[p] == Dozing
  }

  function Do(s: State, step: Step): State
    requires Enabled(s, step)
  {
    var p := step.p;
    match step
    case Dispatch(_) => s.(st := s.st[p := Running], chan := s.chan[p := NONE], onStack := s.onStack[p := true])
    case SwitchOut(_) =>
      s.(onStack := s.onStack[p := false], leaving := s.leaving[p := false], lock := s.lock[p := Scheduler])
    case SchedRelease(_) => s.(lock := s.lock[p := Free])
    case Preempt(_) =>
      s.(lock := s.lock[p := Thread(p)], st := s.st[p := Runnable], leaving := s.leaving[p := true])
    case SleepOther(_) =>
      s.(lock := s.lock[p := Thread(p)], st := s.st[p := Sleeping], chan := s.chan[p := OTHER],
         leaving := s.leaving[p := true])
    case WakeOther(_) => s.(st := s.st[p := Runnable])
    case Kill(_) => s.(killed := s.killed[p := true], st := if s.st[p] == Sleeping then s.st[p := Runnable] else s.st)
    case Fork(_, x) =>
      s.(st := s.st[x := Used], pid := s.pid[x := s.nextPid], nextPid := s.nextPid + 1,
         lock := s.lock[x := Thread(p)], pc := s.pc[p := Alloced(x)])
    case ForkFail(_) => FreeProc(s, s.pc[p].np).(lock := s.lock[s.pc[p].np := Free], pc := s.pc[p := Out])
    case ForkKeep(_) => s.(lock := s.lock[s.pc[p].np := Free], pc := s.pc[p := ForkLink(s.pc[p].np)])
    case ForkParent(_) => s.(parent := s.parent[s.pc[p].np := p], pc := s.pc[p := ForkReady(s.pc[p].np)])
    case ForkRun(_) => s.(st := s.st[s.pc[p].np := Runnable], pc := s.pc[p := Out])
    case ExitBegin(_) => s.(waitLock := p, pc := s.pc[p := Reparent(0)])
    case ReparentStep(_) =>
      var i := s.pc[p].i;
      if i == |s.st| then s.(pc := s.pc[p := WakeParent(0)])
      else if s.parent[i] == p then s.(parent := s.parent[i := s.init], pc := s.pc[p := WakeInit(i, 0)])
      else s.(pc := s.pc[p := Reparent(i + 1)])
    case WakeStep(_) =>
      var j := s.pc[p].j;
      if j == |s.st| then s.(pc := s.pc[p := if s.pc[p].WakeInit? then Reparent(s.pc[p].i + 1) else Dying])
      else s.(st := if j != p && s.st[j] == Sleeping && s.chan[j] == Target(s, p) then s.st[j := Runnable] else s.st,
              pc := s.pc[p := s.pc[p].(j := j + 1)])
    case Die(_) =>
      s.(lock := s.lock[p := Thread(p)], st := s.st[p := Zombie], pc := s.pc[p := Dead],
         exited := s.exited + [s.pid[p]])
    case DieRelease(_) => s.(waitLock := NONE, leaving := s.leaving[p := true], pc := s.pc[p := Gone])
    case WaitBegin(_) => s.(waitLock := p, pc := s.pc[p := Scan(0, false)])
    case ScanStep(_, copied) => Scanned(s, p, copied)
    case SleepLock(_) => s.(lock := s.lock[p := Thread(p)], pc := s.pc[p := Committed])
    case SleepRelease(_) => s.(waitLock := NONE, pc := s.pc[p := Dozing])
    case SleepCommit(_) =>
      s.(chan := s.chan[p := p], st := s.st[p := Sleeping], leaving := s.leaving[p := true], pc := s.pc[p := WaitRetry])
  }

  /** `freeproc`. */
  function FreeProc(s: State, x: int): State
    requires Shaped(s) && Valid(s, x)
  {
    s.(st := s.st[x := Unused], parent := s.parent[x := NONE], chan := s.chan[x := NONE],
       killed := s.killed[x := false], pid := s.pid[x := 0], pc := s.pc[x := Out])
  }

  /** One round of the scan in `wait`, or the decision after the last one.  `copied` tells
      whether the exit status reached the caller's memory. */
  function Scanned(s: State, p: int, copied: bool): State
    requires Shaped(s) && Valid(s, p) && s.pc[p].Scan? && 0 <= s.pc[p].i <= |s.st|
  {
    var i := s.pc[p].i;
    if i == |s.st| then
      if !s.pc[p].kids || s.killed[p] then s.(waitLock := NONE, pc := s.pc[p := Out])
      else s.(pc := s.pc[p := Sleepy])
    else if s.parent[i] != p then s.(pc := s.pc[p := Scan(i + 1, s.pc[p].kids)])
    else if s.st[i] != Zombie then s.(pc := s.pc[p := Scan(i + 1, true)])
    else if !copied then s.(waitLock := NONE, pc := s.pc[p := Out])
    else
      FreeProc(s, i).(waitLock := NONE, pc := s.pc[i := Out][p := Out], reaped := s.reaped + [s.pid[i]])
  }

  // --- one process at a time --------------------------------------------------------------------

  /** What the fields of one process say about each other. */
  predicate LocalOk(p: int, st: PState, chan: int, pc: Pc, onStack: bool, leaving: bool, lock: Lock) {
    && (lock == Thread(p) <==> leaving || pc.Committed? || pc.Dozing? || pc.Dead?)
    && (lock == Scheduler ==> !onStack)
    && match st
       case Unused => pc == Out && !onStack && !leaving && chan == NONE
       case Used => pc == Out && !onStack && !leaving && chan == NONE
       case Running => onStack && !leaving && !pc.Dead? && !pc.Gone?
       case Runnable => onStack == leaving && Parked(pc)
       case Sleeping => onStack == leaving && ((chan == OTHER && pc == Out) || (chan == p && pc == WaitRetry))
       case Zombie => if pc.Dead? then onStack && !leaving else pc.Gone? && onStack == leaving
  }

  /** The loop counters of a process are in range. */
  predicate CountersOk(pc: Pc, n: int) {
    match pc
    case Reparent(i) => 0 <= i <= n
    case WakeInit(i, j) => 0 <= i < n && 0 <= j <= n
    case WakeParent(j) => 0 <= j <= n
    case Scan(i, _) => 0 <= i <= n
    case _ => true
  }

  predicate LocalAt(s: State, p: int)
    requires Shaped(s) && Valid(s, p)
  {
    && LocalOk(p, s.st[p], s.chan[p], s.pc[p], s.onStack[p], s.leaving[p], s.lock[p])
    && CountersOk(s.pc[p], |s.st|)
  }

  ghost predicate LocalInv(s: State) {
    Shaped(s) && forall p :: Valid(s, p) ==> LocalAt(s, p)
  }

  // --- the locks ----------------------------------------------------------------------------------

  predicate HoldsWait(pc: Pc) {
    pc.Reparent? || pc.WakeInit? || pc.WakeParent? || pc.Dying? || pc.Dead? || pc.Scan? || pc.Sleepy? || pc.Committed?
  }

  /** wait_lock is held by the process whose program point says so. */
  ghost predicate WaitLockInv(pc: seq<Pc>, waitLock: int) {
    && (waitLock == NONE || 0 <= waitLock < |pc|)
    && forall p :: 0 <= p < |pc| ==> (HoldsWait(pc[p]) <==> waitLock == p)
  }

  /** A process holds the lock of another only while forking into that slot. */
  ghost predicate LockInv(pc: seq<Pc>, lock: seq<Lock>) {
    && |pc| == |lock|
    && (forall x :: 0 <= x < |lock| && lock[x].Thread? ==> 0 <= lock[x].t < |pc|)
    && forall x, t :: 0 <= x < |lock| && 0 <= t < |pc| && x != t ==> (lock[x] == Thread(t) <==> pc[t] == Alloced(x))
  }

  /** The slot that `t` is filling is USED, and its parent is set exactly from `ForkReady` on. */
  predicate FillAt(st: seq<PState>, parent: seq<int>, pc: Pc, t: int)
    requires |parent| == |st|
  {
    Filling(pc) ==> 0 <= pc.np < |st| && st[pc.np] == Used && parent[pc.np] == if pc.ForkReady? then t else NONE
  }

  /** Each slot in the making has one maker. */
  ghost predicate ForkInv(st: seq<PState>, parent: seq<int>, pc: seq<Pc>) {
    && |parent| == |st| && |pc| == |st|
    && (forall t :: 0 <= t < |pc| ==> FillAt(st, parent, pc[t], t))
    && (forall t, u :: 0 <= t < |pc| && 0 <= u < |pc| && Filling(pc[t]) && Filling(pc[u]) && pc[t].np == pc[u].np
         ==> t == u)
  }

  // --- the tree of processes ------------------------------------------------------------------------

  predicate Alive(st: PState) {
    st.Sleeping? || st.Runnable? || st.Running?
  }

  predicate Exiting(pc: Pc) {
    pc.Reparent? || pc.WakeInit? || pc.WakeParent? || pc.Dying? || pc.Dead? || pc.Gone?
  }

  /** How many slots the exiting process knows not to be its children. */
  function Cleared(pc: Pc, n: int): int {
    if pc.Reparent? then pc.i else if pc.WakeInit? then pc.i + 1 else if Exiting(pc) then n else 0
  }

  /** None of the first `k` slots is a child of `p`. */
  ghost predicate NotChild(parent: seq<int>, p: int, k: int) {
    forall c :: 0 <= c < |parent| && c < k ==> parent[c] != p
  }

  /** Every process past USED, except init, has a parent, and parents are alive. */
  ghost predicate TreeInv(init: int, st: seq<PState>, parent: seq<int>, pc: seq<Pc>) {
    && |parent| == |st| && |pc| == |st| && 0 <= init < |st|
    && (forall c :: 0 <= c < |st| && parent[c] != NONE ==>
          0 <= parent[c] < |st| && parent[c] != c && Alive(st[parent[c]]) && st[c] != Unused)
    && (forall c :: 0 <= c < |st| && st[c] != Unused && st[c] != Used && c != init ==> parent[c] != NONE)
    && Alive(st[init]) && parent[init] == NONE && !Exiting(pc[init])
    && (forall p :: 0 <= p < |st| ==> NotChild(parent, p, Cleared(pc[p], |st|)))
  }

  // --- nobody sleeps over a zombie child ---------------------------------------------------------------

  /** How many slots a waiting process has looked at and will not look at again before it sleeps. */
  function Looked(st: PState, pc: Pc, n: int): int {
    if pc.Scan? then pc.i
    else if pc.Sleepy? || pc.Committed? || pc.Dozing? || (pc.WaitRetry? && st.Sleeping?) then n
    else 0
  }

  /** The holder of wait_lock is about to wake init. */
  predicate WakingInit(init: int, pc: seq<Pc>, waitLock: int) {
    0 <= waitLock < |pc| && pc[waitLock].WakeInit? && pc[waitLock].j <= init
  }

  /** None of the first `k` slots is a zombie child of `p`. */
  ghost predicate NoZombie(st: seq<PState>, parent: seq<int>, p: int, k: int)
    requires |parent| == |st|
  {
    forall c :: 0 <= c < |st| && c < k && parent[c] == p ==> st[c] != Zombie
  }

  /** A process that has looked at a slot, and will sleep or is asleep, has no zombie there,
      except that init may be about to be woken. */
  ghost predicate SleepInv(init: int, st: seq<PState>, parent: seq<int>, pc: seq<Pc>, waitLock: int) {
    && |parent| == |st| && |pc| == |st|
    && (forall p :: 0 <= p < |st| ==>
          NoZombie(st, parent, p, Looked(st[p], pc[p], |st|)) || (p == init && WakingInit(init, pc, waitLock)))
  }

  /** An exiting process that is past the wakeup has a parent that is awake. */
  ghost predicate WokenInv(st: seq<PState>, parent: seq<int>, pc: seq<Pc>) {
    && |parent| == |st| && |pc| == |st|
    && (forall h :: 0 <= h < |st| && 0 <= parent[h] < |st| && Woken(pc[h], parent[h]) ==>
          Looked(st[parent[h]], pc[parent[h]], |st|) <= 0)
  }

  predicate Woken(pc: Pc, q: int) {
    pc.Dying? || (pc.WakeParent? && q < pc.j)
  }

  // --- pids ----------------------------------------------------------------------------------------------

  ghost predicate Distinct(xs: seq<int>) {
    forall i, j :: 0 <= i < j < |xs| ==> xs[i] != xs[j]
  }

  /** Every exit is on record once, and is either reaped, once, or still a zombie in the table. */
  ghost predicate PidInv(st: seq<PState>, pid: seq<int>, nextPid: int, exited: seq<int>, reaped: seq<int>) {
    && |pid| == |st| && 0 < nextPid && Distinct(exited) && Distinct(reaped)
    && (forall x :: 0 <= x < |st| && st[x] != Unused ==> 0 < pid[x] < nextPid && pid[x] !in reaped)
    && (forall x :: 0 <= x < |st| && st[x] != Unused ==> (pid[x] in exited <==> st[x] == Zombie))
    && (forall x, y :: 0 <= x < |st| && 0 <= y < |st| && st[x] != Unused && st[y] != Unused && pid[x] == pid[y]
         ==> x == y)
    && (forall e :: e in reaped ==> e in exited)
    && (forall e :: e in exited ==>
          0 < e < nextPid && (e in reaped || exists x :: 0 <= x < |st| && st[x] == Zombie && pid[x] == e))
  }

  ghost predicate Inv(s: State) {
    && LocalInv(s)
    && WaitLockInv(s.pc, s.waitLock)
    && LockInv(s.pc, s.lock)
    && ForkInv(s.st, s.parent, s.pc)
    && TreeInv(s.init, s.st, s.parent, s.pc)
    && SleepInv(s.init, s.st, s.parent, s.pc, s.waitLock)
    && WokenInv(s.st, s.parent, s.pc)
    && PidInv(s.st, s.pid, s.nextPid, s.exited, s.reaped)
  }

  // --- one process: each step ------------------------------------------------------------------------------

  predicate CpuStep(step: Step) {
    step.Dispatch? || step.SwitchOut? || step.SchedRelease? || step.Preempt? || step.SleepOther? || step.WakeOther?
      || step.Kill?
  }

  predicate WaitStep(step: Step) {
    step.WaitBegin? || step.SleepLock? || step.SleepRelease? || step.SleepCommit?
  }

  predicate ForkStep(step: Step) {
    step.Fork? || step.ForkFail? || step.ForkKeep? || step.ForkParent? || step.ForkRun?
  }

  lemma LocalCpuStep(s: State, step: Step, q: int)
    requires CpuStep(step) && Enabled(s, step) && Valid(s, q) && LocalAt(s, step.p) && LocalAt(s, q)
    ensures Shaped(Do(s, step)) && LocalAt(Do(s, step), q)
  {
  }

  lemma LocalScanStep(s: State, step: Step, q: int)
    requires step.ScanStep? && Enabled(s, step) && Valid(s, q) && LocalAt(s, step.p) && LocalAt(s, q)
    ensures Shaped(Do(s, step)) && LocalAt(Do(s, step), q)
  {
    if Reaps(s, step) {
      LocalReaps(s, step, q);
    }
  }

  lemma LocalReaps(s: State, step: Step, q: int)
    requires Enabled(s, step) && Reaps(s, step) && Valid(s, q) && LocalAt(s, step.p) && LocalAt(s, q)
    ensures Shaped(Do(s, step)) && LocalAt(Do(s, step), q)
  {
    if q == s.pc[step.p].i {
      assert s.lock[q] == Free && s.pc[q].Gone?;
    }
  }

  lemma LocalWaitStep(s: State, step: Step, q: int)
    requires WaitStep(step) && Enabled(s, step) && Valid(s, q) && LocalAt(s, step.p) && LocalAt(s, q)
    ensures Shaped(Do(s, step)) && LocalAt(Do(s, step), q)
  {
  }

  lemma LocalForkStep(s: State, step: Step, q: int)
    requires ForkStep(step) && Enabled(s, step) && Valid(s, q) && LocalAt(s, step.p) && LocalAt(s, q)
    requires FillAt(s.st, s.parent, s.pc[step.p], step.p)
    ensures Shaped(Do(s, step)) && LocalAt(Do(s, step), q)
  {
  }

  lemma LocalExitStep(s: State, step: Step, q: int)
    requires !CpuStep(step) && !WaitStep(step) && !step.ScanStep? && !ForkStep(step)
    requires Enabled(s, step) && Valid(s, q) && LocalAt(s, step.p) && LocalAt(s, q)
    ensures Shaped(Do(s, step)) && LocalAt(Do(s, step), q)
  {
  }

  lemma LocalStep(s: State, step: Step)
    requires LocalInv(s) && ForkInv(s.st, s.parent, s.pc) && Enabled(s, step)
    ensures LocalInv(Do(s, step))
  {
    assert LocalAt(s, step.p);
    forall q | Valid(s, q) ensures Shaped(Do(s, step)) && LocalAt(Do(s, step), q) {
      if CpuStep(step) {
        LocalCpuStep(s, step, q);
      } else if WaitStep(step) {
        LocalWaitStep(s, step, q);
      } else if step.ScanStep? {
        LocalScanStep(s, step, q);
      } else if ForkStep(step) {
        LocalForkStep(s, step, q);
      } else {
        LocalExitStep(s, step, q);
      }
    }
  }

  lemma WaitLockScan(s: State, step: Step)
    requires WaitLockInv(s.pc, s.waitLock) && Enabled(s, step) && LocalInv(s) && step.ScanStep?
    ensures WaitLockInv(Do(s, step).pc, Do(s, step).waitLock)
  {
    var i := s.pc[step.p].i;
    if i < |s.st| {
      assert LocalAt(s, i);
    }
  }

  lemma WaitLockMove(pc: seq<Pc>, waitLock: int, p: int, pc1: Pc, waitLock1: int)
    requires WaitLockInv(pc, waitLock) && 0 <= p < |pc|
    requires HoldsWait(pc1) <==> waitLock1 == p
    requires if waitLock == p || waitLock1 == p then waitLock == NONE || waitLock == p else waitLock1 == waitLock
    requires waitLock1 == p || waitLock1 == NONE || waitLock1 == waitLock
    ensures WaitLockInv(pc[p := pc1], waitLock1)
  {
  }

  lemma WaitLockStep(s: State, step: Step)
    requires WaitLockInv(s.pc, s.waitLock) && Enabled(s, step) && LocalAt(s, step.p) && !step.ScanStep?
    requires FillAt(s.st, s.parent, s.pc[step.p], step.p) && (step.ForkFail? ==> !HoldsWait(s.pc[s.pc[step.p].np]))
    ensures WaitLockInv(Do(s, step).pc, Do(s, step).waitLock)
  {
    var s', p := Do(s, step), step.p;
    assert s'.pc == s.pc[p := s'.pc[p]];
    WaitLockMove(s.pc, s.waitLock, p, s'.pc[p], s'.waitLock);
  }

  // --- locks: each step -----------------------------------------------------------------------------------------

  lemma LockPc(pc: seq<Pc>, lock: seq<Lock>, p: int, pc1: Pc)
    requires LockInv(pc, lock) && 0 <= p < |pc| && !pc[p].Alloced? && !pc1.Alloced?
    ensures LockInv(pc[p := pc1], lock)
  {
  }

  predicate OwnOrIdle(lock: Lock, p: int) {
    lock.Thread? ==> lock.t == p
  }

  lemma LockOwn(pc: seq<Pc>, lock: seq<Lock>, p: int, l: Lock)
    requires LockInv(pc, lock) && 0 <= p < |pc| && OwnOrIdle(lock[p], p) && OwnOrIdle(l, p)
    ensures LockInv(pc, lock[p := l])
  {
  }

  lemma LockFork(pc: seq<Pc>, lock: seq<Lock>, p: int, x: int)
    requires LockInv(pc, lock) && 0 <= p < |pc| && 0 <= x < |pc| && p != x && lock[x] == Free && !pc[p].Alloced?
    ensures LockInv(pc[p := Alloced(x)], lock[x := Thread(p)])
  {
  }

  lemma LockForked(pc: seq<Pc>, lock: seq<Lock>, p: int, x: int, pc1: Pc)
    requires LockInv(pc, lock) && 0 <= p < |pc| && 0 <= x < |pc| && p != x && pc[p] == Alloced(x) && !pc1.Alloced?
    ensures LockInv(pc[p := pc1], lock[x := Free])
  {
    assert lock[x] == Thread(p);
  }

  /** The step is the round of the scan that frees a zombie. */
  predicate Reaps(s: State, step: Step)
    requires Enabled(s, step)
  {
    && step.ScanStep? && step.copied
    && var i := s.pc[step.p].i;
    i < |s.st| && s.parent[i] == step.p && s.st[i] == Zombie
  }

  /** The step only changes what belongs to process `p`. */
  predicate OwnStep(s: State, step: Step)
    requires Enabled(s, step)
  {
    !step.Kill? && !step.Fork? && !step.ForkFail? && !step.ForkKeep? && !Reaps(s, step)
  }

  /** Nobody else holds the lock of a process that is past USED. */
  lemma OwnLock(s: State, p: int)
    requires Shaped(s) && Valid(s, p) && ForkInv(s.st, s.parent, s.pc) && LockInv(s.pc, s.lock) && s.st[p] != Used
    ensures OwnOrIdle(s.lock[p], p)
  {
  }

  lemma LockOwnStep(s: State, step: Step)
    requires Enabled(s, step) && LocalAt(s, step.p) && OwnOrIdle(s.lock[step.p], step.p) && LockInv(s.pc, s.lock)
             && OwnStep(s, step)
    ensures LockInv(Do(s, step).pc, Do(s, step).lock)
  {
    var p, s' := step.p, Do(s, step);
    LockOwn(s.pc, s.lock, p, s'.lock[p]);
    LockPc(s.pc, s'.lock, p, s'.pc[p]);
    assert s.pc[p := s'.pc[p]] == s'.pc;
    assert s.lock[p := s'.lock[p]] == s'.lock;
  }

  lemma LockStep(s: State, step: Step)
    requires LocalInv(s) && ForkInv(s.st, s.parent, s.pc) && LockInv(s.pc, s.lock) && Enabled(s, step)
    ensures LockInv(Do(s, step).pc, Do(s, step).lock)
  {
    var p := step.p;
    assert LocalAt(s, p);
    assert FillAt(s.st, s.parent, s.pc[p], p);
    if step.Fork? {
      LockFork(s.pc, s.lock, p, step.child);
    } else if step.ForkFail? || step.ForkKeep? {
      LockForked(s.pc, s.lock, p, s.pc[p].np, if step.ForkFail? then Out else ForkLink(s.pc[p].np));
    } else if Reaps(s, step) {
      assert LocalAt(s, s.pc[p].i);
      LockPc(s.pc, s.lock, s.pc[p].i, Out);
      LockPc(s.pc[s.pc[p].i := Out], s.lock, p, Out);
    } else if !step.Kill? {
      if s.st[p] != Used {
        OwnLock(s, p);
      }
      LockOwnStep(s, step);
    }
  }
}
