/** `pipewrite`, `piperead` and `pipeclose` by many processes at once.

    The pipe lock and the lock of each process are explicit.  `sleep` takes the process's own
    lock, releases the pipe lock, and only then marks the process asleep; `wakeup` visits the
    processes one by one and needs the lock of each.  A kill can come at any time. */
module Pipe {
  import opened Options
  import opened PipeRing

  /** Where a process is.  `n` is the requested count, `i` the bytes written so far, `unsaid`
      those of them that no `wakeup` has announced, and `j` how far a `wakeup` has come. */
  datatype Pc =
    | Idle
    | WantWrite(n: int)
    | Writing(n: int, i: int, unsaid: nat)
    | FullWake(n: int, i: int, j: nat)
    | WriterDozing(n: int, i: int)     // has its own lock, has released the pipe lock
    | WriterAsleep(n: int, i: int)
    | WriterWoken(n: int, i: int)
    | WriteWake(i: int, j: nat)
    | WantRead(n: int)
    | Reading(n: int)
    | ReaderDozing(n: int)
    | ReaderAsleep(n: int)
    | ReaderWoken(n: int)
    | Copying(n: int, got: seq<int>)
    | ReadWake(got: seq<int>, dropped: bool, j: nat)
    | WantClose(writable: bool)
    | CloseWake(writable: bool, j: nat)

  datatype Proc = Proc(pc: Pc, killed: bool)

  datatype State = State(
    ring: Ring,
    readopen: bool,
    writeopen: bool,
    freed: bool,
    lock: int,             // who holds the pipe lock, or -1
    procs: seq<Proc>,
    readRef: bool,         // some file refers to the read end
    writeRef: bool,
    stored: seq<int>,      // every byte ever put in
    removed: seq<int>,     // every byte ever taken out
    lost: bool)            // a killed writer left bytes, and no `wakeup` of readers has come since

  datatype Step =
    | StartWrite(p: nat, n: int)
    | StartRead(p: nat, n: int)
    | StartClose(p: nat, writable: bool)
    | Acquire(p: nat)
    | Advance(p: nat, copied: Option<int>)  // None when copying to or from the user fails
    | Scan(p: nat)
    | FallAsleep(p: nat)
    | Kill(p: nat)
    | Reuse(p: nat)

  // --- classification of program points ---------------------------------------------------

  predicate Holds(pc: Pc) {
    pc.Writing? || pc.FullWake? || pc.WriteWake? || pc.Reading? || pc.Copying? || pc.ReadWake? || pc.CloseWake?
  }

  predicate HoldsOwnLock(pc: Pc) {
    pc.WriterDozing? || pc.ReaderDozing?
  }

  predicate ReaderSleeps(pc: Pc) {
    pc.ReaderDozing? || pc.ReaderAsleep?
  }

  predicate WriterSleeps(pc: Pc) {
    pc.WriterDozing? || pc.WriterAsleep?
  }

  predicate IsWriter(pc: Pc) {
    pc.WantWrite? || pc.Writing? || pc.FullWake? || pc.WriterDozing? || pc.WriterAsleep? || pc.WriterWoken?
      || pc.WriteWake?
  }

  predicate IsReader(pc: Pc) {
    pc.WantRead? || pc.Reading? || pc.ReaderDozing? || pc.ReaderAsleep? || pc.ReaderWoken? || pc.Copying?
      || pc.ReadWake?
  }

  predicate WantsLock(pc: Pc) {
    pc.WantWrite? || pc.WriterWoken? || pc.WantRead? || pc.ReaderWoken? || pc.WantClose?
  }

  predicate ScansReaders(pc: Pc) {
    pc.FullWake? || pc.WriteWake? || (pc.CloseWake? && pc.writable)
  }

  predicate ScansWriters(pc: Pc) {
    pc.ReadWake? || (pc.CloseWake? && !pc.writable)
  }

  // --- steps ---------------------------------------------------------------------------------

  /** The bytes are where they were. */
  predicate SameBytes(s: State, t: State) {
    t.ring == s.ring && t.stored == s.stored && t.removed == s.removed
  }

  function At(s: State, p: nat, pc: Pc): (t: State)
    requires p < |s.procs|
    ensures |t.procs| == |s.procs| && SameBytes(s, t) && t.lost == s.lost
  {
    s.(procs := s.procs[p := s.procs[p].(pc := pc)])
  }

  function Release(s: State): State {
    s.(lock := -1)
  }

  /** `wakeup` at one process. */
  function WakeOne(pc: Pc, readers: bool): Pc {
    if readers && pc.ReaderAsleep? then ReaderWoken(pc.n)
    else if !readers && pc.WriterAsleep? then WriterWoken(pc.n, pc.i)
    else pc
  }

  predicate Enabled(s: State, step: Step) {
    && step.p < |s.procs|
    && var pc := s.procs[step.p].pc;
    match step
    case StartWrite(p, n) => pc.Idle? && s.writeRef
    case StartRead(p, n) => pc.Idle? && s.readRef
    case StartClose(p, w) =>
      // the last reference goes away, so nobody is in the middle of using it
      && pc.Idle?
      && (if w then s.writeRef else s.readRef)
      && (forall q :: 0 <= q < |s.procs| ==>
            if w then !IsWriter(s.procs[q].pc) else !IsReader(s.procs[q].pc))
    case Acquire(p) =>
      s.lock == -1 && WantsLock(pc)
    case Advance(p, copied) => pc.Writing? || pc.Reading? || pc.Copying?
    case Scan(p) =>
      && Scans(pc)
      && (pc.j < |s.procs| && pc.j != p ==> !HoldsOwnLock(s.procs[pc.j].pc))
    case FallAsleep(p) => HoldsOwnLock(pc)
    case Kill(p) => !HoldsOwnLock(pc)
    case Reuse(p) => pc.Idle?
  }

  /** Where a process is when it has the lock. */
  function Inside(pc: Pc): Pc
    requires WantsLock(pc)
  {
    if pc.WantWrite? then Writing(pc.n, 0, 0)
    else if pc.WriterWoken? then Writing(pc.n, pc.i, 0)
    else if pc.WantClose? then CloseWake(pc.writable, 0)
    else Reading(pc.n)
  }

  function DoAcquire(s: State, p: nat): (t: State)
    requires p < |s.procs| && WantsLock(s.procs[p].pc)
    ensures SameBytes(s, t) && t.lost == s.lost
  {
    var pc := s.procs[p].pc;
    At(s.(lock := p,
          readopen := s.readopen && !(pc.WantClose? && !pc.writable),
          writeopen := s.writeopen && !(pc.WantClose? && pc.writable)), p, Inside(pc))
  }

  /** The writer sees that it must give up. */
  predicate GivesUp(s: State, x: Proc)
    requires x.pc.Writing?
  {
    x.pc.i < x.pc.n && (!s.readopen || x.killed)
  }

  /** The writer stores a byte. */
  predicate Stores(s: State, x: Proc, copied: Option<int>)
    requires x.pc.Writing?
  {
    x.pc.i < x.pc.n && !GivesUp(s, x) && !IsFull(s.ring) && copied.Some?
  }

  /** One turn of the loop of `pipewrite`. */
  function DoWrite(s: State, p: nat, copied: Option<int>): State
    requires p < |s.procs| && s.procs[p].pc.Writing?
  {
    var x := s.procs[p];
    var Writing(n, i, unsaid) := x.pc;
    if GivesUp(s, x) then Release(At(s, p, Idle)).(lost := s.lost || unsaid > 0)
    else if Stores(s, x, copied) then
      At(s, p, Writing(n, i + 1, unsaid + 1)).(ring := Put(s.ring, copied.value), stored := s.stored + [copied.value])
    else At(s, p, if i < n && IsFull(s.ring) then FullWake(n, i, 0) else WriteWake(i, 0))
  }

  /** The test at the head of `piperead`. */
  function DoRead(s: State, p: nat): (t: State)
    requires p < |s.procs| && s.procs[p].pc.Reading?
    ensures SameBytes(s, t) && t.lost == s.lost
  {
    var n := s.procs[p].pc.n;
    if IsEmpty(s.ring) && s.writeopen then
      Release(At(s, p, if s.procs[p].killed then Idle else ReaderDozing(n)))
    else At(s, p, Copying(n, []))
  }

  /** One turn of the copy loop of `piperead`. */
  function DoCopy(s: State, p: nat, copied: Option<int>): (t: State)
    requires p < |s.procs| && s.procs[p].pc.Copying?
    ensures t.lost == s.lost
  {
    var Copying(n, got) := s.procs[p].pc;
    if |got| >= n || IsEmpty(s.ring) then At(s, p, ReadWake(got, false, 0))
    else
      var (ring, ch) := Get(s.ring);
      At(s, p, if copied.Some? then Copying(n, got + [ch]) else ReadWake(got, true, 0))
      .(ring := ring, removed := s.removed + [ch])
  }

  function Next(pc: Pc): Pc
    requires Scans(pc)
  {
    pc.(j := pc.j + 1)
  }

  predicate Scans(pc: Pc) {
    ScansReaders(pc) || ScansWriters(pc)
  }

  /** One process visited by `wakeup`. */
  function Visit(s: State, p: nat): (t: State)
    requires p < |s.procs| && Scans(s.procs[p].pc) && s.procs[p].pc.j < |s.procs|
    ensures SameBytes(s, t) && t.lost == s.lost
  {
    var pc := s.procs[p].pc;
    if pc.j == p then At(s, p, Next(pc))
    else At(At(s, pc.j, WakeOne(s.procs[pc.j].pc, ScansReaders(pc))), p, Next(pc))
  }

  /** What follows the `wakeup`.  After one of readers nothing is lost any more. */
  function Scanned(s: State, p: nat): (t: State)
    requires p < |s.procs| && Scans(s.procs[p].pc)
    ensures SameBytes(s, t) && (t.lost ==> s.lost)
  {
    var pc := s.procs[p].pc;
    Release(At(s, p, if pc.FullWake? then WriterDozing(pc.n, pc.i) else Idle))
    .(lost := s.lost && !ScansReaders(pc),
      freed := if pc.CloseWake? then !s.readopen && !s.writeopen else s.freed)
  }

  function Do(s: State, step: Step): State
    requires Enabled(s, step)
  {
    var pc := s.procs[step.p].pc;
    match step
    case StartWrite(p, n) => At(s, p, WantWrite(n))
    case StartRead(p, n) => At(s, p, WantRead(n))
    case StartClose(p, w) =>
      At(if w then s.(writeRef := false) else s.(readRef := false), p, WantClose(w))
    case Acquire(p) => DoAcquire(s, p)
    case Advance(p, copied) =>
      if pc.Writing? then DoWrite(s, p, copied)
      else if pc.Reading? then DoRead(s, p)
      else DoCopy(s, p, copied)
    case Scan(p) => if pc.j < |s.procs| then Visit(s, p) else Scanned(s, p)
    case FallAsleep(p) =>
      At(s, p, if pc.WriterDozing? then WriterAsleep(pc.n, pc.i) else ReaderAsleep(pc.n))
    case Kill(p) =>
      var woken := WakeOne(WakeOne(pc, true), false);
      s.(procs := s.procs[p := Proc(woken, true)])
    case Reuse(p) => s.(procs := s.procs[p := Proc(Idle, false)])
  }

  // --- runs ------------------------------------------------------------------------------------

  predicate Initial(s: State) {
    && SizeOk(|s.ring.data|) && s.ring.nread == 0 && s.ring.nwrite == 0
    && s.readopen && s.writeopen && !s.freed && s.lock == -1
    && s.readRef && s.writeRef
    && s.stored == [] && s.removed == [] && !s.lost
    && (forall p :: 0 <= p < |s.procs| ==> s.procs[p].pc.Idle?)
  }

  ghost predicate CanRun(s: State, steps: seq<Step>)
    decreases |steps|, 0
  {
    steps != [] ==>
      var init := steps[..|steps| - 1];
      CanRun(s, init) && Enabled(After(s, init), steps[|steps| - 1])
  }

  ghost function After(s: State, steps: seq<Step>): State
    requires CanRun(s, steps)
    decreases |steps|, 1
  {
    if steps == [] then s
    else Do(After(s, steps[..|steps| - 1]), steps[|steps| - 1])
  }

  // --- invariants ---------------------------------------------------------------------------------

  predicate LockInv(s: State) {
    && -1 <= s.lock < |s.procs|
    && (forall p :: 0 <= p < |s.procs| ==> (Holds(s.procs[p].pc) <==> s.lock == p))
  }

  /** Whoever holds the lock has bytes or an end of file to announce to sleeping readers. */
  predicate WillWakeReaders(s: State) {
    0 <= s.lock < |s.procs| &&
    var pc := s.procs[s.lock].pc;
    ScansReaders(pc) || (pc.Writing? && pc.unsaid > 0)
  }

  predicate WillWakeWriters(s: State) {
    0 <= s.lock < |s.procs| &&
    var pc := s.procs[s.lock].pc;
    ScansWriters(pc) || (pc.Copying? && pc.got != [])
  }

  predicate SleepInv(s: State) {
    && (forall p :: 0 <= p < |s.procs| && ReaderSleeps(s.procs[p].pc) ==>
          (IsEmpty(s.ring) && s.writeopen) || s.lost || WillWakeReaders(s))
    && (forall p :: 0 <= p < |s.procs| && WriterSleeps(s.procs[p].pc) ==>
          (IsFull(s.ring) && s.readopen) || WillWakeWriters(s))
  }

  /** Nobody whom a `wakeup` has visited is asleep on that channel. */
  predicate ScanInv(s: State) {
    0 <= s.lock < |s.procs| ==>
      var pc := s.procs[s.lock].pc;
      && (ScansReaders(pc) ==> pc.j <= |s.procs|)
      && (ScansReaders(pc) ==> forall q :: 0 <= q < pc.j ==> !ReaderSleeps(s.procs[q].pc))
      && (ScansWriters(pc) ==> pc.j <= |s.procs|)
      && (ScansWriters(pc) ==> forall q :: 0 <= q < pc.j ==> !WriterSleeps(s.procs[q].pc))
      && (pc.Writing? && pc.unsaid > 0 ==> s.readopen && !IsEmpty(s.ring))
      && (pc.FullWake? ==> s.readopen && IsFull(s.ring))
  }

  ghost predicate QueueInv(s: State) {
    RingInv(s.ring, s.stored, s.removed)
  }

  /** The bytes that a reader has so far are the last ones that came out. */
  predicate GotInv(s: State) {
    0 <= s.lock < |s.procs| ==>
      var pc := s.procs[s.lock].pc;
      && (pc.Copying? ==> |pc.got| <= |s.removed| && s.removed[|s.removed| - |pc.got|..] == pc.got)
      && (pc.ReadWake? ==>
            var n := |s.removed| - (if pc.dropped then 1 else 0);
            |pc.got| <= n && s.removed[n - |pc.got|..n] == pc.got)
  }

  predicate Core(s: State) {
    LockInv(s) && ScanInv(s) && SleepInv(s) && GotInv(s)
  }

  ghost predicate Inv(s: State) {
    Core(s) && QueueInv(s)
  }

  /** What the holder of the lock knows. */
  ghost predicate HolderInv(s: State) {
    ScanInv(s) && GotInv(s)
  }

  // --- steps that neither take, use nor release the pipe lock ---------------------------------

  /** The process moves between points where it does not hold the lock, and does not go to
      sleep, or only its `killed` flag changes. */
  predicate Quiet(was: Pc, pc: Pc) {
    && (if Holds(was) then pc == was else !Holds(pc))
    && (ReaderSleeps(pc) ==> ReaderSleeps(was))
    && (WriterSleeps(pc) ==> WriterSleeps(was))
  }

  lemma QuietLock(s: State, p: nat, x: Proc)
    requires LockInv(s) && p < |s.procs| && Quiet(s.procs[p].pc, x.pc)
    ensures LockInv(s.(procs := s.procs[p := x]))
    ensures 0 <= s.lock ==> s.procs[p := x][s.lock].pc == s.procs[s.lock].pc
  {
  }

  lemma QuietScan(s: State, p: nat, x: Proc)
    requires ScanInv(s) && p < |s.procs| && Quiet(s.procs[p].pc, x.pc)
    requires 0 <= s.lock < |s.procs| ==> s.procs[p := x][s.lock].pc == s.procs[s.lock].pc
    ensures ScanInv(s.(procs := s.procs[p := x]))
  {
  }

  lemma QuietHolder(s: State, p: nat, x: Proc)
    requires LockInv(s) && HolderInv(s) && p < |s.procs| && Quiet(s.procs[p].pc, x.pc)
    ensures LockInv(s.(procs := s.procs[p := x])) && HolderInv(s.(procs := s.procs[p := x]))
  {
    QuietLock(s, p, x);
    QuietScan(s, p, x);
  }

  lemma QuietSleep(s: State, p: nat, x: Proc)
    requires LockInv(s) && SleepInv(s) && p < |s.procs| && Quiet(s.procs[p].pc, x.pc)
    ensures SleepInv(s.(procs := s.procs[p := x]))
  {
    var s' := s.(procs := s.procs[p := x]);
    assert 0 <= s.lock ==> s'.procs[s.lock].pc == s.procs[s.lock].pc;
    assert WillWakeReaders(s') == WillWakeReaders(s) && WillWakeWriters(s') == WillWakeWriters(s);
  }

  lemma QuietStep(s: State, p: nat, x: Proc)
    requires Core(s) && p < |s.procs| && Quiet(s.procs[p].pc, x.pc)
    ensures Core(s.(procs := s.procs[p := x]))
  {
    QuietHolder(s, p, x);
    QuietSleep(s, p, x);
  }

  // --- taking the lock --------------------------------------------------------------------------

  lemma TakesLock(s: State, p: nat, pc: Pc, readopen: bool, writeopen: bool)
    requires Core(s) && s.lock == -1 && p < |s.procs| && Holds(pc)
    requires var s' := At(s.(lock := p, readopen := readopen, writeopen := writeopen), p, pc);
             && HolderInv(s')
             && (writeopen == s.writeopen || WillWakeReaders(s'))
             && (readopen == s.readopen || WillWakeWriters(s'))
    ensures Core(At(s.(lock := p, readopen := readopen, writeopen := writeopen), p, pc))
  {
    var s' := At(s.(lock := p, readopen := readopen, writeopen := writeopen), p, pc);
    assert forall q :: 0 <= q < |s.procs| && q != p ==> s'.procs[q] == s.procs[q];
    assert !ReaderSleeps(pc) && !WriterSleeps(pc);
  }

  lemma TakesToUse(s: State, p: nat, pc: Pc)
    requires Core(s) && s.lock == -1 && p < |s.procs|
    requires pc.Reading? || (pc.Writing? && pc.unsaid == 0)
    ensures Core(At(s.(lock := p), p, pc))
  {
    TakesLock(s, p, pc, s.readopen, s.writeopen);
  }

  lemma TakesToClose(s: State, p: nat, w: bool)
    requires Core(s) && s.lock == -1 && p < |s.procs|
    ensures Core(At(s.(lock := p, readopen := s.readopen && w, writeopen := s.writeopen && !w), p, CloseWake(w, 0)))
  {
    TakesLock(s, p, CloseWake(w, 0), s.readopen && w, s.writeopen && !w);
  }

  lemma InvAcquire(s: State, p: nat)
    requires Core(s) && s.lock == -1 && p < |s.procs| && WantsLock(s.procs[p].pc)
    ensures Core(DoAcquire(s, p))
  {
    var pc := s.procs[p].pc;
    if pc.WantClose? {
      TakesToClose(s, p, pc.writable);
    } else {
      TakesToUse(s, p, Inside(pc));
    }
  }

  // --- moving on with the lock held --------------------------------------------------------------

  /** The holder moves to another point where it holds the lock and will still wake whom it
      owes a `wakeup`; the ring may change with it. */
  lemma HolderMoves(s: State, pc: Pc, ring: Ring, stored: seq<int>, removed: seq<int>)
    requires Core(s) && 0 <= s.lock && Holds(pc)
    requires var s' := At(s, s.lock, pc).(ring := ring, stored := stored, removed := removed);
             && HolderInv(s')
             && (WillWakeReaders(s') || (!WillWakeReaders(s) && (IsEmpty(s.ring) ==> IsEmpty(ring))))
             && (WillWakeWriters(s') || (!WillWakeWriters(s) && (IsFull(s.ring) ==> IsFull(ring))))
    ensures Core(At(s, s.lock, pc).(ring := ring, stored := stored, removed := removed))
  {
    var s' := At(s, s.lock, pc).(ring := ring, stored := stored, removed := removed);
    assert forall q :: 0 <= q < |s.procs| && q != s.lock ==> s'.procs[q] == s.procs[q];
    assert !ReaderSleeps(pc) && !WriterSleeps(pc);
  }

  /** Copying a byte into the ring. */
  lemma InvPut(s: State, p: nat, ch: int)
    requires Inv(s) && p < |s.procs| && s.procs[p].pc.Writing?
    requires s.readopen && !IsFull(s.ring)
    ensures var Writing(n, i, unsaid) := s.procs[p].pc;
            Core(At(s, p, Writing(n, i + 1, unsaid + 1)).(ring := Put(s.ring, ch), stored := s.stored + [ch]))
  {
    var Writing(n, i, unsaid) := s.procs[p].pc;
    PutKeeps(s.ring, s.stored, s.removed, ch);
    TestsMean(Put(s.ring, ch), s.stored + [ch], s.removed);
    HolderMoves(s, Writing(n, i + 1, unsaid + 1), Put(s.ring, ch), s.stored + [ch], s.removed);
  }

  // --- giving up the lock ---------------------------------------------------------------------------

  /** The holder lets go.  Whoever it still owed a `wakeup` must not be asleep, unless the run
      is on record as having lost one. */
  lemma ReleasesLock(s: State, pc: Pc, lost: bool)
    requires Core(s) && 0 <= s.lock && !Holds(pc)
    requires s.lost ==> lost || forall q :: 0 <= q < |s.procs| ==> !ReaderSleeps(s.procs[q].pc)
    requires WillWakeReaders(s) ==> lost || forall q :: 0 <= q < |s.procs| ==> !ReaderSleeps(s.procs[q].pc)
    requires WillWakeWriters(s) ==> forall q :: 0 <= q < |s.procs| ==> !WriterSleeps(s.procs[q].pc)
    requires ReaderSleeps(pc) ==> IsEmpty(s.ring) && s.writeopen
    requires WriterSleeps(pc) ==> IsFull(s.ring) && s.readopen
    ensures Core(Release(At(s, s.lock, pc)).(lost := lost))
  {
    var s' := Release(At(s, s.lock, pc)).(lost := lost);
    assert forall q :: 0 <= q < |s.procs| && q != s.lock ==> s'.procs[q] == s.procs[q];
  }

  /** The holder goes on to announce what it did, with the ring as it is. */
  lemma HolderAnnounces(s: State, pc: Pc)
    requires Core(s) && 0 <= s.lock
    requires (pc.WriteWake? || pc.FullWake?) ==> s.procs[s.lock].pc.Writing? && pc.j == 0
    requires pc.FullWake? ==> s.readopen && IsFull(s.ring)
    requires pc.ReadWake? ==>
               && s.procs[s.lock].pc.Copying? && pc.j == 0 && !pc.dropped && pc.got == s.procs[s.lock].pc.got
    requires pc.WriteWake? || pc.FullWake? || pc.ReadWake?
    ensures Core(At(s, s.lock, pc))
  {
    HolderMoves(s, pc, s.ring, s.stored, s.removed);
  }

  lemma InvWriteStop(s: State, p: nat)
    requires Core(s) && p < |s.procs| && s.procs[p].pc.Writing?
    ensures Core(Release(At(s, p, Idle)).(lost := s.lost || s.procs[p].pc.unsaid > 0))
  {
    ReleasesLock(s, Idle, s.lost || s.procs[p].pc.unsaid > 0);
  }

  lemma InvWriteOther(s: State, p: nat, copied: Option<int>)
    requires Core(s) && p < |s.procs| && s.procs[p].pc.Writing? && !Stores(s, s.procs[p], copied)
    ensures Core(DoWrite(s, p, copied))
  {
    var x := s.procs[p];
    assert s.lock == p;
    if GivesUp(s, x) {
      InvWriteStop(s, p);
    } else {
      HolderAnnounces(s, if x.pc.i < x.pc.n && IsFull(s.ring) then FullWake(x.pc.n, x.pc.i, 0)
        else WriteWake(x.pc.i, 0));
    }
  }

  lemma InvWrite(s: State, p: nat, copied: Option<int>)
    requires Inv(s) && p < |s.procs| && s.procs[p].pc.Writing?
    ensures Core(DoWrite(s, p, copied))
  {
    if Stores(s, s.procs[p], copied) {
      InvPut(s, p, copied.value);
    } else {
      InvWriteOther(s, p, copied);
    }
  }

  lemma InvReadSleeps(s: State, p: nat, pc: Pc)
    requires Core(s) && p < |s.procs| && s.procs[p].pc.Reading?
    requires IsEmpty(s.ring) && s.writeopen && (pc.Idle? || pc.ReaderDozing?)
    ensures Core(Release(At(s, p, pc)))
  {
    ReleasesLock(s, pc, s.lost);
  }

  lemma CopiesHolder(s: State, p: nat, n: int)
    requires LockInv(s) && p < |s.procs| && s.procs[p].pc.Reading?
    ensures s.lock == p && HolderInv(At(s, p, Copying(n, [])))
    ensures !WillWakeReaders(s) && !WillWakeWriters(s)
  {
    assert s.removed[|s.removed|..] == [];
  }

  lemma InvReadCopies(s: State, p: nat, n: int)
    requires Core(s) && p < |s.procs| && s.procs[p].pc.Reading?
    ensures Core(At(s, p, Copying(n, [])))
  {
    CopiesHolder(s, p, n);
    HolderMoves(s, Copying(n, []), s.ring, s.stored, s.removed);
  }

  lemma InvRead(s: State, p: nat)
    requires Core(s) && p < |s.procs| && s.procs[p].pc.Reading?
    ensures Core(DoRead(s, p))
  {
    var n := s.procs[p].pc.n;
    if IsEmpty(s.ring) && s.writeopen {
      InvReadSleeps(s, p, if s.procs[p].killed then Idle else ReaderDozing(n));
    } else {
      InvReadCopies(s, p, n);
    }
  }

  /** A byte leaves the ring and reaches the user. */
  lemma InvGet(s: State, p: nat)
    requires Inv(s) && p < |s.procs| && s.procs[p].pc.Copying? && !IsEmpty(s.ring)
    ensures var Copying(n, got) := s.procs[p].pc;
            var (ring, ch) := Get(s.ring);
            Core(At(s, p, Copying(n, got + [ch])).(ring := ring, removed := s.removed + [ch]))
  {
    var Copying(n, got) := s.procs[p].pc;
    var (ring, ch) := Get(s.ring);
    GetTakesNext(s.ring, s.stored, s.removed);
    assert (s.removed + [ch])[|s.removed| - |got|..] == s.removed[|s.removed| - |got|..] + [ch];
    HolderMoves(s, Copying(n, got + [ch]), ring, s.stored, s.removed + [ch]);
  }

  /** A byte leaves the ring but cannot be copied to the user. */
  lemma InvDrop(s: State, p: nat)
    requires Inv(s) && p < |s.procs| && s.procs[p].pc.Copying? && !IsEmpty(s.ring)
    ensures var (ring, ch) := Get(s.ring);
            Core(At(s, p, ReadWake(s.procs[p].pc.got, true, 0)).(ring := ring, removed := s.removed + [ch]))
  {
    var (ring, ch) := Get(s.ring);
    var got := s.procs[p].pc.got;
    GetTakesNext(s.ring, s.stored, s.removed);
    assert (s.removed + [ch])[|s.removed| - |got|..|s.removed|] == s.removed[|s.removed| - |got|..];
    HolderMoves(s, ReadWake(got, true, 0), ring, s.stored, s.removed + [ch]);
  }

  lemma InvCopy(s: State, p: nat, copied: Option<int>)
    requires Inv(s) && p < |s.procs| && s.procs[p].pc.Copying?
    ensures Core(DoCopy(s, p, copied))
  {
    assert s.lock == p;
    if |s.procs[p].pc.got| >= s.procs[p].pc.n || IsEmpty(s.ring) {
      HolderAnnounces(s, ReadWake(s.procs[p].pc.got, false, 0));
    } else {
      if copied.Some? {
        InvGet(s, p);
      } else {
        InvDrop(s, p);
      }
    }
  }

  predicate CanPass(s: State, p: nat) {
    && p < |s.procs|
    && var pc := s.procs[p].pc;
    && (ScansReaders(pc) || ScansWriters(pc)) && pc.j < |s.procs|
    && (ScansReaders(pc) ==> !ReaderSleeps(s.procs[pc.j].pc))
    && (ScansWriters(pc) ==> !WriterSleeps(s.procs[pc.j].pc))
  }

  lemma PassHolder(s: State, p: nat)
    requires LockInv(s) && HolderInv(s) && CanPass(s, p)
    ensures HolderInv(At(s, p, Next(s.procs[p].pc)))
  {
    assert s.lock == p;
  }

  /** The scan moves past a process that is not asleep on its channel. */
  lemma InvPass(s: State, p: nat)
    requires Core(s) && CanPass(s, p)
    ensures Core(At(s, p, Next(s.procs[p].pc)))
  {
    PassHolder(s, p);
    HolderMoves(s, Next(s.procs[p].pc), s.ring, s.stored, s.removed);
  }

  lemma InvWakeOne(s: State, q: nat, readers: bool)
    requires Core(s) && q < |s.procs|
    ensures Core(At(s, q, WakeOne(s.procs[q].pc, readers)))
  {
    QuietStep(s, q, s.procs[q].(pc := WakeOne(s.procs[q].pc, readers)));
  }

  lemma VisitedPasses(s: State, p: nat)
    requires LockInv(s) && p < |s.procs| && Scans(s.procs[p].pc) && s.procs[p].pc.j < |s.procs| && s.procs[p].pc.j != p
    requires !HoldsOwnLock(s.procs[s.procs[p].pc.j].pc)
    ensures var pc := s.procs[p].pc;
            CanPass(At(s, pc.j, WakeOne(s.procs[pc.j].pc, ScansReaders(pc))), p)
  {
  }

  lemma InvVisitOther(s: State, p: nat)
    requires Core(s) && p < |s.procs| && Scans(s.procs[p].pc) && s.procs[p].pc.j < |s.procs|
    requires s.procs[p].pc.j != p && !HoldsOwnLock(s.procs[s.procs[p].pc.j].pc)
    ensures var u := At(s, s.procs[p].pc.j, WakeOne(s.procs[s.procs[p].pc.j].pc, ScansReaders(s.procs[p].pc)));
            Core(At(u, p, Next(s.procs[p].pc)))
  {
    var pc := s.procs[p].pc;
    VisitedPasses(s, p);
    InvWakeOne(s, pc.j, ScansReaders(pc));
    InvPass(At(s, pc.j, WakeOne(s.procs[pc.j].pc, ScansReaders(pc))), p);
  }

  /** One process visited by `wakeup`. */
  lemma InvVisit(s: State, p: nat)
    requires Core(s) && p < |s.procs| && Scans(s.procs[p].pc) && s.procs[p].pc.j < |s.procs|
    requires s.procs[p].pc.j != p ==> !HoldsOwnLock(s.procs[s.procs[p].pc.j].pc)
    ensures Core(Visit(s, p))
  {
    if s.procs[p].pc.j == p {
      InvPass(s, p);
    } else {
      InvVisitOther(s, p);
    }
  }

  /** At the end of the scan nobody it was for is asleep. */
  lemma ScannedAll(s: State, p: nat)
    requires LockInv(s) && ScanInv(s) && p < |s.procs| && Scans(s.procs[p].pc) && s.procs[p].pc.j >= |s.procs|
    ensures s.lock == p
    ensures WillWakeReaders(s) ==> forall q :: 0 <= q < |s.procs| ==> !ReaderSleeps(s.procs[q].pc)
    ensures WillWakeWriters(s) ==> forall q :: 0 <= q < |s.procs| ==> !WriterSleeps(s.procs[q].pc)
    ensures s.procs[p].pc.FullWake? ==> s.readopen && IsFull(s.ring)
  {
  }

  lemma InvFreed(s: State, freed: bool)
    requires Core(s)
    ensures Core(s.(freed := freed))
  {
  }

  lemma InvLeaves(s: State, p: nat, pc: Pc)
    requires Core(s) && p < |s.procs| && Scans(s.procs[p].pc) && s.procs[p].pc.j >= |s.procs|
    requires pc.Idle? || (pc.WriterDozing? && s.procs[p].pc.FullWake?)
    ensures Core(Release(At(s, p, pc)).(lost := s.lost && !ScansReaders(s.procs[p].pc)))
  {
    ScannedAll(s, p);
    ReleasesLock(s, pc, s.lost && !ScansReaders(s.procs[p].pc));
  }

  lemma InvLeft(s: State, p: nat, pc: Pc, lost: bool, freed: bool)
    requires Core(s) && p < |s.procs| && Scans(s.procs[p].pc) && s.procs[p].pc.j >= |s.procs|
    requires pc.Idle? || (pc.WriterDozing? && s.procs[p].pc.FullWake?)
    requires lost == (s.lost && !ScansReaders(s.procs[p].pc))
    ensures Core(Release(At(s, p, pc)).(lost := lost, freed := freed))
  {
    InvLeaves(s, p, pc);
    InvFreed(Release(At(s, p, pc)).(lost := lost), freed);
  }

  lemma InvScanned(s: State, p: nat)
    requires Core(s) && p < |s.procs| && Scans(s.procs[p].pc) && s.procs[p].pc.j >= |s.procs|
    ensures Core(Scanned(s, p))
  {
    var pc := s.procs[p].pc;
    InvLeft(s, p, if pc.FullWake? then WriterDozing(pc.n, pc.i) else Idle, Scanned(s, p).lost, Scanned(s, p).freed);
  }

  lemma InvStart(s: State, p: nat, pc: Pc)
    requires Core(s) && p < |s.procs| && s.procs[p].pc.Idle?
    requires pc.WantWrite? || pc.WantRead? || pc.WantClose?
    ensures Core(At(s, p, pc))
  {
    QuietStep(s, p, s.procs[p].(pc := pc));
  }

  lemma InvFallAsleep(s: State, p: nat)
    requires Core(s) && Enabled(s, FallAsleep(p))
    ensures Core(Do(s, FallAsleep(p)))
  {
    var pc := s.procs[p].pc;
    if pc.WriterDozing? {
      QuietStep(s, p, s.procs[p].(pc := WriterAsleep(pc.n, pc.i)));
    } else {
      QuietStep(s, p, s.procs[p].(pc := ReaderAsleep(pc.n)));
    }
  }

  lemma InvKill(s: State, p: nat)
    requires Core(s) && Enabled(s, Kill(p))
    ensures Core(Do(s, Kill(p)))
  {
    QuietStep(s, p, Proc(WakeOne(WakeOne(s.procs[p].pc, true), false), true));
  }

  lemma InvRefs(s: State, readRef: bool, writeRef: bool)
    requires Core(s)
    ensures Core(s.(readRef := readRef, writeRef := writeRef))
  {
  }

  lemma InvStartClose(s: State, p: nat, w: bool)
    requires Core(s) && Enabled(s, StartClose(p, w))
    ensures Core(Do(s, StartClose(p, w)))
  {
    InvRefs(s, s.readRef && w, s.writeRef && !w);
    InvStart(s.(readRef := s.readRef && w, writeRef := s.writeRef && !w), p, WantClose(w));
  }

  lemma InvQuiet(s: State, step: Step)
    requires Core(s) && Enabled(s, step)
    requires !step.Acquire? && !step.Advance? && !step.Scan?
    ensures Core(Do(s, step))
  {
    match step
    case StartWrite(p, n) => InvStart(s, p, WantWrite(n));
    case StartRead(p, n) => InvStart(s, p, WantRead(n));
    case StartClose(p, w) => InvStartClose(s, p, w);
    case FallAsleep(p) => InvFallAsleep(s, p);
    case Kill(p) => InvKill(s, p);
    case Reuse(p) => QuietStep(s, p, Proc(Idle, false));
  }

  lemma QueueWrite(s: State, p: nat, copied: Option<int>)
    requires QueueInv(s) && p < |s.procs| && s.procs[p].pc.Writing?
    ensures QueueInv(DoWrite(s, p, copied))
  {
    if Stores(s, s.procs[p], copied) {
      PutKeeps(s.ring, s.stored, s.removed, copied.value);
    }
  }

  lemma QueueCopy(s: State, p: nat, copied: Option<int>)
    requires QueueInv(s) && p < |s.procs| && s.procs[p].pc.Copying?
    ensures QueueInv(DoCopy(s, p, copied))
  {
    if !IsEmpty(s.ring) {
      GetTakesNext(s.ring, s.stored, s.removed);
    }
  }

  lemma QueueStep(s: State, step: Step)
    requires QueueInv(s) && Enabled(s, step)
    ensures QueueInv(Do(s, step))
  {
    if step.Advance? && s.procs[step.p].pc.Writing? {
      QueueWrite(s, step.p, step.copied);
    } else if step.Advance? && s.procs[step.p].pc.Copying? {
      QueueCopy(s, step.p, step.copied);
    } else {
      QueueSame(s, step);
    }
  }

  lemma QueueSame(s: State, step: Step)
    requires Enabled(s, step) && !(step.Advance? && (s.procs[step.p].pc.Writing? || s.procs[step.p].pc.Copying?))
    ensures SameBytes(s, Do(s, step)) && (Do(s, step).lost ==> s.lost)
  {
    match step
    case StartWrite(p, n) =>
    case StartRead(p, n) =>
    case StartClose(p, w) =>
    case Acquire(p) => assert Do(s, step) == DoAcquire(s, p);
    case Advance(p, copied) => assert Do(s, step) == DoRead(s, p);
    case Scan(p) => assert Do(s, step) == if s.procs[p].pc.j < |s.procs| then Visit(s, p) else Scanned(s, p);
    case FallAsleep(p) =>
    case Kill(p) =>
    case Reuse(p) =>
  }

  lemma CoreStep(s: State, step: Step)
    requires Inv(s) && Enabled(s, step)
    ensures Core(Do(s, step))
  {
    var p, pc := step.p, s.procs[step.p].pc;
    if step.Acquire? {
      InvAcquire(s, p);
    } else if step.Advance? {
      if pc.Writing? {
        InvWrite(s, p, step.copied);
      } else if pc.Reading? {
        InvRead(s, p);
      } else {
        InvCopy(s, p, step.copied);
      }
    } else if step.Scan? {
      if pc.j < |s.procs| {
        InvVisit(s, p);
      } else {
        InvScanned(s, p);
      }
    } else {
      InvQuiet(s, step);
    }
  }

  lemma InvStep(s: State, step: Step)
    requires Inv(s) && Enabled(s, step)
    ensures Inv(Do(s, step))
  {
    CoreStep(s, step);
    QueueStep(s, step);
  }

  lemma {:induction false} InvHolds(s: State, steps: seq<Step>)
    requires Initial(s) && CanRun(s, steps)
    ensures Inv(After(s, steps))
    decreases |steps|
  {
    if steps != [] {
      InvHolds(s, steps[..|steps| - 1]);
      InvStep(After(s, steps[..|steps| - 1]), steps[|steps| - 1]);
    }
  }

  // --- what every run guarantees -------------------------------------------------------------------

  /** Bytes come out in the order in which they went in, none twice and none invented, and
      what is in the ring is the rest; wrapping of the counters does not matter. */
  lemma PipeIsQueue(s: State, steps: seq<Step>)
    requires Initial(s) && CanRun(s, steps)
    ensures var t := After(s, steps);
            && t.removed <= t.stored
            && |t.stored| - |t.removed| <= |t.ring.data|
            && (forall k :: |t.removed| <= k < |t.stored| ==> t.ring.data[k % |t.ring.data|] == t.stored[k])
  {
    InvHolds(s, steps);
  }

  predicate PartAt(whole: seq<int>, k: nat, part: seq<int>) {
    k + |part| <= |whole| && whole[k..k + |part|] == part
  }

  lemma SuffixIsPart(whole: seq<int>, prefix: seq<int>, n: nat, part: seq<int>) returns (k: nat)
    requires prefix <= whole && |part| <= n <= |prefix| && prefix[n - |part|..n] == part
    ensures PartAt(whole, k, part)
  {
    k := n - |part|;
    assert whole[k..n] == prefix[k..n];
  }

  lemma ReadPart(t: State, p: nat)
    requires LockInv(t) && QueueInv(t) && GotInv(t) && p < |t.procs| && t.procs[p].pc.ReadWake?
    ensures exists k :: PartAt(t.stored, k, t.procs[p].pc.got)
  {
    assert t.lock == p;
    var pc := t.procs[p].pc;
    var k := SuffixIsPart(t.stored, t.removed, |t.removed| - (if pc.dropped then 1 else 0), pc.got);
  }

  /** What one call of `piperead` returns is a contiguous part of what was written. */
  lemma ReadIsContiguous(s: State, steps: seq<Step>, p: nat)
    requires Initial(s) && CanRun(s, steps)
    requires p < |After(s, steps).procs| && After(s, steps).procs[p].pc.ReadWake?
    ensures exists k :: PartAt(After(s, steps).stored, k, After(s, steps).procs[p].pc.got)
  {
    InvHolds(s, steps);
    ReadPart(After(s, steps), p);
  }

  predicate SleepersJustified(s: State) {
    forall p :: 0 <= p < |s.procs| ==>
      && (ReaderSleeps(s.procs[p].pc) ==> IsEmpty(s.ring) && s.writeopen)
      && (WriterSleeps(s.procs[p].pc) ==> IsFull(s.ring) && s.readopen)
  }

  /** No wakeup is lost: whenever the lock is free, a sleeping writer finds the pipe full and
      a sleeping reader finds it empty and open, unless a writer has been killed between storing
      a byte and announcing it and no `wakeup` of readers has been completed since. */
  lemma NoLostWakeup(s: State, steps: seq<Step>)
    requires Initial(s) && CanRun(s, steps)
    requires After(s, steps).lock == -1 && !After(s, steps).lost
    ensures SleepersJustified(After(s, steps))
  {
    InvHolds(s, steps);
  }

  /** For writers this needs no condition. */
  lemma WritersNeverLost(s: State, steps: seq<Step>, p: nat)
    requires Initial(s) && CanRun(s, steps) && After(s, steps).lock == -1
    requires p < |After(s, steps).procs| && WriterSleeps(After(s, steps).procs[p].pc)
    ensures IsFull(After(s, steps).ring) && After(s, steps).readopen
  {
    InvHolds(s, steps);
  }

  /** A reader and a writer never sleep on the same pipe. */
  lemma NeverBothAsleep(s: State, steps: seq<Step>, p: nat, q: nat)
    requires Initial(s) && CanRun(s, steps)
    requires After(s, steps).lock == -1 && !After(s, steps).lost
    requires p < |After(s, steps).procs| && q < |After(s, steps).procs|
    ensures !(ReaderSleeps(After(s, steps).procs[p].pc) && WriterSleeps(After(s, steps).procs[q].pc))
  {
    InvHolds(s, steps);
    var t := After(s, steps);
    TestsMean(t.ring, t.stored, t.removed);
  }

  lemma OthersLoseNothing(s: State, step: Step)
    requires Enabled(s, step)
    requires !(step.Advance? && s.procs[step.p].pc.Writing?)
    ensures Do(s, step).lost ==> s.lost
  {
    if step.Advance? && s.procs[step.p].pc.Copying? {
      assert Do(s, step) == DoCopy(s, step.p, step.copied);
    } else {
      QueueSame(s, step);
    }
  }

  /** The one way to lose a wakeup: a step records a loss exactly when a killed writer leaves
      bytes that it stored and did not announce. */
  lemma LostOnlyByKill(s: State, step: Step)
    requires Inv(s) && Enabled(s, step) && !s.lost
    ensures Do(s, step).lost <==>
            && step.Advance? && s.procs[step.p].pc.Writing?
            && s.procs[step.p].killed
            && s.procs[step.p].pc.unsaid > 0
            && s.procs[step.p].pc.i < s.procs[step.p].pc.n
  {
    if !(step.Advance? && s.procs[step.p].pc.Writing?) {
      OthersLoseNothing(s, step);
    }
  }

  /** And then a reader that was asleep stays asleep on a pipe that is not empty. */
  lemma KilledWriterStrandsReaders(s: State, p: nat, q: nat, copied: Option<int>)
    requires Inv(s) && p < |s.procs| && q < |s.procs|
    requires s.procs[p].pc.Writing? && s.procs[p].killed
    requires s.procs[p].pc.unsaid > 0 && s.procs[p].pc.i < s.procs[p].pc.n
    requires ReaderSleeps(s.procs[q].pc)
    ensures var t := Do(s, Advance(p, copied));
            t.lock == -1 && ReaderSleeps(t.procs[q].pc) && !IsEmpty(t.ring) && !SleepersJustified(t)
  {
    var t := Do(s, Advance(p, copied));
    assert t.procs[q] == s.procs[q];
  }

  lemma RunMore(s: State, steps: seq<Step>, step: Step)
    requires CanRun(s, steps) && Enabled(After(s, steps), step)
    ensures CanRun(s, steps + [step])
    ensures After(s, steps + [step]) == Do(After(s, steps), step)
  {
    assert (steps + [step])[..|steps|] == steps;
  }

  /** A reader is asleep and a writer, which wants to write two bytes, has the lock. */
  function ReaderAndWriter(i: nat): State {
    State(if i == 0 then Ring([0], 0, 0) else Put(Ring([0], 0, 0), 7), true, true, false, 1,
          [Proc(ReaderDozing(1), false), Proc(Writing(2, i, i), false)],
          true, true, if i == 0 then [] else [7], [], false)
  }

  lemma ReaderAndWriterMeet() returns (s: State, steps: seq<Step>)
    ensures Initial(s) && CanRun(s, steps) && After(s, steps) == ReaderAndWriter(0)
  {
    s := State(Ring([0], 0, 0), true, true, false, -1, [Proc(Idle, false), Proc(Idle, false)],
               true, true, [], [], false);
    steps := [];
    RunMore(s, steps, StartRead(0, 1));
    steps := steps + [StartRead(0, 1)];
    RunMore(s, steps, Acquire(0));
    steps := steps + [Acquire(0)];
    RunMore(s, steps, Advance(0, None));
    steps := steps + [Advance(0, None)];
    assert After(s, steps).procs == [Proc(ReaderDozing(1), false), Proc(Idle, false)];
    RunMore(s, steps, StartWrite(1, 2));
    steps := steps + [StartWrite(1, 2)];
    RunMore(s, steps, Acquire(1));
    steps := steps + [Acquire(1)];
  }

  lemma WriterStores()
    ensures Enabled(ReaderAndWriter(0), Advance(1, Some(7)))
    ensures Do(ReaderAndWriter(0), Advance(1, Some(7))) == ReaderAndWriter(1)
  {
    var s, t := ReaderAndWriter(0), ReaderAndWriter(1);
    assert DoWrite(s, 1, Some(7)).procs == t.procs;
  }

  /** Such a run exists: a reader goes to sleep, a writer stores one of two bytes and is killed. */
  lemma LostWakeupHappens() returns (s: State, steps: seq<Step>)
    ensures Initial(s) && CanRun(s, steps)
    ensures After(s, steps).lock == -1 && !SleepersJustified(After(s, steps))
  {
    s, steps := ReaderAndWriterMeet();
    WriterStores();
    RunMore(s, steps, Advance(1, Some(7)));
    steps := steps + [Advance(1, Some(7))];
    RunMore(s, steps, Kill(1));
    steps := steps + [Kill(1)];
    InvHolds(s, steps);
    KilledWriterStrandsReaders(After(s, steps), 1, 0, None);
    RunMore(s, steps, Advance(1, None));
    steps := steps + [Advance(1, None)];
  }

  /** A completed `wakeup` of readers makes up for every loss before it. */
  lemma WakeupMakesGood(s: State, steps: seq<Step>, p: nat)
    requires Initial(s) && CanRun(s, steps) && Enabled(After(s, steps), Scan(p))
    requires var t := After(s, steps); ScansReaders(t.procs[p].pc) && t.procs[p].pc.j >= |t.procs|
    ensures !Do(After(s, steps), Scan(p)).lost && SleepersJustified(Do(After(s, steps), Scan(p)))
  {
    InvHolds(s, steps);
    InvStep(After(s, steps), Scan(p));
  }

  // --- the pipe is freed when nobody uses it -------------------------------------------------------

  predicate RefInv(s: State) {
    && (s.writeRef ==> s.writeopen) && (s.readRef ==> s.readopen)
    && (forall p :: 0 <= p < |s.procs| ==> ProcRef(s, s.procs[p].pc))
    && (forall p, q :: 0 <= p < |s.procs| && 0 <= q < |s.procs| && s.procs[p].pc.WantClose? ==>
          s.procs[p].pc == s.procs[q].pc ==> p == q)
    && (s.freed ==> !s.readopen && !s.writeopen && forall p :: 0 <= p < |s.procs| ==> s.procs[p].pc.Idle?)
  }

  /** A process uses an end only while a file refers to it or it is itself closing it. */
  predicate ProcRef(s: State, pc: Pc) {
    && (IsWriter(pc) ==> s.writeRef)
    && (IsReader(pc) ==> s.readRef)
    && (pc.WantClose? ==> if pc.writable then !s.writeRef && s.writeopen else !s.readRef && s.readopen)
  }

  lemma RefMoves(s: State, p: nat, x: Proc)
    requires RefInv(s) && p < |s.procs| && ProcRef(s, x.pc)
    requires x.pc.WantClose? ==> x.pc == s.procs[p].pc
    requires s.freed ==> x.pc.Idle?
    ensures RefInv(s.(procs := s.procs[p := x]))
  {
  }

  lemma RefStartClose(s: State, p: nat, w: bool)
    requires RefInv(s) && Enabled(s, StartClose(p, w))
    ensures RefInv(Do(s, StartClose(p, w)))
  {
    var s' := Do(s, StartClose(p, w));
    assert forall q :: 0 <= q < |s.procs| && q != p ==> s'.procs[q] == s.procs[q];
  }

  lemma RefAcquireClose(s: State, p: nat)
    requires RefInv(s) && Enabled(s, Acquire(p)) && s.procs[p].pc.WantClose?
    ensures RefInv(Do(s, Acquire(p)))
  {
    var s' := Do(s, Acquire(p));
    forall q | 0 <= q < |s.procs| && q != p
      ensures s'.procs[q] == s.procs[q] && s.procs[q].pc != s.procs[p].pc
    {
    }
  }

  /** When a closer finds both ends closed, everyone else has left. */
  lemma RefFree(s: State, p: nat)
    requires RefInv(s) && LockInv(s) && p < |s.procs| && s.procs[p].pc.CloseWake?
    ensures RefInv(Release(At(s, p, Idle)).(freed := !s.readopen && !s.writeopen))
  {
    if !s.readopen && !s.writeopen {
      forall q | 0 <= q < |s.procs| && q != p ensures s.procs[q].pc.Idle? {
        assert ProcRef(s, s.procs[q].pc);
        assert !Holds(s.procs[q].pc);
      }
    }
  }

  lemma RefAcquire(s: State, p: nat)
    requires RefInv(s) && LockInv(s) && Enabled(s, Acquire(p))
    ensures RefInv(Do(s, Acquire(p)))
  {
    if s.procs[p].pc.WantClose? {
      RefAcquireClose(s, p);
    } else {
      RefMoves(s, p, Do(s, Acquire(p)).procs[p]);
    }
  }

  /** Moving on within a call does not change who uses what. */
  lemma RefStays(s: State, p: nat, pc: Pc)
    requires RefInv(s) && p < |s.procs| && !s.procs[p].pc.Idle? && !pc.WantClose?
    requires IsWriter(pc) ==> IsWriter(s.procs[p].pc)
    requires IsReader(pc) ==> IsReader(s.procs[p].pc)
    ensures RefInv(At(s, p, pc))
  {
    RefMoves(s, p, s.procs[p].(pc := pc));
  }

  lemma RefWrite(s: State, p: nat, copied: Option<int>)
    requires RefInv(s) && p < |s.procs| && s.procs[p].pc.Writing?
    ensures RefInv(DoWrite(s, p, copied))
  {
    var t := DoWrite(s, p, copied);
    RefStays(s, p, t.procs[p].pc);
    RefSame(At(s, p, t.procs[p].pc), t);
  }

  lemma RefRead(s: State, p: nat)
    requires RefInv(s) && p < |s.procs| && s.procs[p].pc.Reading?
    ensures RefInv(DoRead(s, p))
  {
    RefStays(s, p, DoRead(s, p).procs[p].pc);
  }

  lemma RefCopy(s: State, p: nat, copied: Option<int>)
    requires RefInv(s) && p < |s.procs| && s.procs[p].pc.Copying?
    ensures RefInv(DoCopy(s, p, copied))
  {
    RefStays(s, p, DoCopy(s, p, copied).procs[p].pc);
  }

  lemma RefWakeOne(s: State, q: nat, readers: bool)
    requires RefInv(s) && q < |s.procs|
    ensures RefInv(At(s, q, WakeOne(s.procs[q].pc, readers)))
  {
    RefMoves(s, q, s.procs[q].(pc := WakeOne(s.procs[q].pc, readers)));
  }

  lemma RefVisit(s: State, p: nat)
    requires RefInv(s) && p < |s.procs| && Scans(s.procs[p].pc) && s.procs[p].pc.j < |s.procs|
    ensures RefInv(Visit(s, p))
  {
    var pc := s.procs[p].pc;
    if pc.j == p {
      RefStays(s, p, Next(pc));
    } else {
      RefWakeOne(s, pc.j, ScansReaders(pc));
      RefStays(At(s, pc.j, WakeOne(s.procs[pc.j].pc, ScansReaders(pc))), p, Next(pc));
    }
  }

  /** The lock and the bytes do not matter to who uses what. */
  lemma RefSame(s: State, t: State)
    requires RefInv(s) && t.procs == s.procs && t.readRef == s.readRef && t.writeRef == s.writeRef
    requires t.readopen == s.readopen && t.writeopen == s.writeopen && t.freed == s.freed
    ensures RefInv(t)
  {
    forall p | 0 <= p < |t.procs| ensures ProcRef(t, t.procs[p].pc) {
      assert ProcRef(s, s.procs[p].pc);
    }
  }

  lemma RefLeaves(s: State, p: nat, pc: Pc)
    requires RefInv(s) && p < |s.procs| && Scans(s.procs[p].pc)
    requires pc.Idle? || (pc.WriterDozing? && s.procs[p].pc.FullWake?)
    ensures RefInv(Release(At(s, p, pc)))
  {
    RefStays(s, p, pc);
    RefSame(At(s, p, pc), Release(At(s, p, pc)));
  }

  lemma RefScanned(s: State, p: nat)
    requires RefInv(s) && LockInv(s) && p < |s.procs| && Scans(s.procs[p].pc)
    ensures RefInv(Scanned(s, p))
  {
    var pc := s.procs[p].pc;
    if pc.CloseWake? {
      RefFree(s, p);
    } else {
      RefLeaves(s, p, if pc.FullWake? then WriterDozing(pc.n, pc.i) else Idle);
    }
  }

  lemma RefInvStep(s: State, step: Step)
    requires RefInv(s) && LockInv(s) && Enabled(s, step)
    ensures RefInv(Do(s, step))
  {
    match step
    case StartWrite(p, n) => RefMoves(s, p, s.procs[p].(pc := WantWrite(n)));
    case StartRead(p, n) => RefMoves(s, p, s.procs[p].(pc := WantRead(n)));
    case StartClose(p, w) => RefStartClose(s, p, w);
    case Acquire(p) => RefAcquire(s, p);
    case Advance(p, copied) =>
      if s.procs[p].pc.Writing? {
        RefWrite(s, p, copied);
      } else if s.procs[p].pc.Reading? {
        RefRead(s, p);
      } else {
        RefCopy(s, p, copied);
      }
    case Scan(p) =>
      if s.procs[p].pc.j < |s.procs| {
        RefVisit(s, p);
      } else {
        RefScanned(s, p);
      }
    case FallAsleep(p) => RefMoves(s, p, Do(s, step).procs[p]);
    case Kill(p) => RefMoves(s, p, Do(s, step).procs[p]);
    case Reuse(p) => RefMoves(s, p, Proc(Idle, false));
  }

  lemma {:induction false} RefInvHolds(s: State, steps: seq<Step>)
    requires Initial(s) && CanRun(s, steps)
    ensures RefInv(After(s, steps))
    decreases |steps|
  {
    if steps != [] {
      var init := steps[..|steps| - 1];
      InvHolds(s, init);
      RefInvHolds(s, init);
      RefInvStep(After(s, init), steps[|steps| - 1]);
    }
  }

  /** Once the pipe is freed nobody is using it, and nobody can start to. */
  lemma NoUseAfterFree(s: State, steps: seq<Step>, step: Step)
    requires Initial(s) && CanRun(s, steps) && After(s, steps).freed
    requires Enabled(After(s, steps), step)
    ensures forall p :: 0 <= p < |After(s, steps).procs| ==> After(s, steps).procs[p].pc.Idle?
    ensures step.Kill? || step.Reuse?
  {
    RefInvHolds(s, steps);
  }
}
