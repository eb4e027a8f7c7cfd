/** Many processes using the buffer cache at once, in front of a disk.

    `mem` is what a plain disk would hold if every change were written at once.  The one
    obligation on clients: a process gives up the lock of a buffer that differs from the disk only
    when the buffer is pinned.  Disk transfers are atomic. */
module CacheRun {
  import opened BufCache

  type Key = (int, int)

  datatype State = State(
    bufs: seq<Buf>,
    hist: seq<int>,                 // the buffers put at the front of the list, ever
    owner: seq<int>,                // the holder of each sleep lock, or -1
    pending: seq<multiset<int>>,    // processes between bget and the lock
    leaving: seq<multiset<int>>,    // processes in brelse, past the lock
    pins: seq<int>,
    disk: map<Key, Block>,
    mem: map<Key, Block>)

  datatype Step =
    | Get(p: int, dev: int, blockno: int, b: int)
    | Acquire(p: int, b: int)
    | Fill(p: int, b: int)
    | Use(p: int, b: int, v: Block)
    | Write(p: int, b: int)
    | Pin(p: int, b: int)
    | Unpin(p: int, b: int)
    | Unlock(p: int, b: int)
    | Drop(p: int, b: int)

  predicate Shaped(s: State) {
    |s.owner| == |s.bufs| && |s.pending| == |s.bufs| && |s.leaving| == |s.bufs| && |s.pins| == |s.bufs|
  }

  function KeyOf(b: Buf): Key {
    (b.dev, b.blockno)
  }

  /** The buffer holds the same as the disk. */
  predicate Clean(s: State, b: int)
    requires Shaped(s) && 0 <= b < |s.bufs|
  {
    KeyOf(s.bufs[b]) in s.disk && s.bufs[b].data == s.disk[KeyOf(s.bufs[b])]
  }

  predicate Holds(s: State, p: int, b: int)
    requires Shaped(s) && 0 <= b < |s.bufs|
  {
    0 <= p && s.owner[b] == p && s.bufs[b].valid
  }

  ghost predicate Enabled(s: State, step: Step) {
    && Shaped(s) && 0 <= step.b < |s.bufs| && 0 <= step.p
    && var b := step.b;
    match step
    case Get(p, dev, blockno, _) =>
      && (dev, blockno) != (0, 0) && (dev, blockno) in s.mem && (dev, blockno) in s.disk
      && if Cached(s.bufs, dev, blockno) then HasKey(s.bufs[b], dev, blockno) else Oldest(s.bufs, s.hist, b)
    case Acquire(p, _) => p in s.pending[b] && s.owner[b] == -1
    case Fill(p, _) => s.owner[b] == p && !s.bufs[b].valid && KeyOf(s.bufs[b]) in s.disk
    case Use(p, _, v) => Holds(s, p, b)
    case Write(p, _) => Holds(s, p, b)
    case Pin(p, _) => Holds(s, p, b)
    case Unpin(p, _) => Holds(s, p, b) && s.pins[b] > 0
    case Unlock(p, _) => Holds(s, p, b) && (Clean(s, b) || s.pins[b] > 0)
    case Drop(p, _) => p in s.leaving[b]
  }

  ghost function Do(s: State, step: Step): State
    requires Enabled(s, step)
  {
    var b := step.b;
    var buf := s.bufs[b];
    match step
    case Get(p, dev, blockno, _) =>
      s.(bufs := s.bufs[b := if Cached(s.bufs, dev, blockno) then buf.(refcnt := buf.refcnt + 1)
                             else Buf(dev, blockno, false, 1, buf.data)],
         pending := s.pending[b := s.pending[b] + multiset{p}])
    case Acquire(p, _) =>
      s.(owner := s.owner[b := p], pending := s.pending[b := s.pending[b] - multiset{p}])
    case Fill(p, _) => s.(bufs := s.bufs[b := buf.(valid := true, data := s.disk[KeyOf(buf)])])
    case Use(p, _, v) => s.(bufs := s.bufs[b := buf.(data := v)], mem := s.mem[KeyOf(buf) := v])
    case Write(p, _) => s.(disk := s.disk[KeyOf(buf) := buf.data])
    case Pin(p, _) => s.(bufs := s.bufs[b := buf.(refcnt := buf.refcnt + 1)], pins := s.pins[b := s.pins[b] + 1])
    case Unpin(p, _) => s.(bufs := s.bufs[b := buf.(refcnt := buf.refcnt - 1)], pins := s.pins[b := s.pins[b] - 1])
    case Unlock(p, _) =>
      s.(owner := s.owner[b := -1], leaving := s.leaving[b := s.leaving[b] + multiset{p}])
    case Drop(p, _) =>
      s.(bufs := s.bufs[b := buf.(refcnt := buf.refcnt - 1)],
         hist := if buf.refcnt == 1 then s.hist + [b] else s.hist,
         leaving := s.leaving[b := s.leaving[b] - multiset{p}])
  }

  // --- invariants --------------------------------------------------------------------------------

  /** The reference count counts the processes and the pins. */
  ghost predicate CountAt(s: State, b: int)
    requires Shaped(s) && 0 <= b < |s.bufs|
  {
    && s.pins[b] >= 0 && s.owner[b] >= -1
    && s.bufs[b].refcnt == |s.pending[b]| + |s.leaving[b]| + s.pins[b] + (if s.owner[b] == -1 then 0 else 1)
  }

  ghost predicate CountInv(s: State) {
    Shaped(s) && forall b :: 0 <= b < |s.bufs| ==> CountAt(s, b)
  }

  /** Each block has at most one buffer.  The buffers that were never used all carry (0, 0). */
  ghost predicate KeyInv(bufs: seq<Buf>) {
    forall b, c ::
      0 <= b < |bufs| && 0 <= c < |bufs| && KeyOf(bufs[b]) == KeyOf(bufs[c]) && KeyOf(bufs[b]) != (0, 0) ==> b == c
  }

  /** A buffer that has been read holds the latest contents, and it may differ from the disk only
      while it is locked or pinned. */
  ghost predicate DataAt(s: State, b: int)
    requires Shaped(s) && 0 <= b < |s.bufs|
  {
    && (KeyOf(s.bufs[b]) != (0, 0) ==> KeyOf(s.bufs[b]) in s.mem && KeyOf(s.bufs[b]) in s.disk)
    && (s.bufs[b].refcnt > 0 ==> KeyOf(s.bufs[b]) != (0, 0))
    && (s.bufs[b].valid ==>
          && KeyOf(s.bufs[b]) != (0, 0) && s.bufs[b].data == s.mem[KeyOf(s.bufs[b])]
          && (Clean(s, b) || s.owner[b] != -1 || s.pins[b] > 0))
  }

  /** Buffer `b` holds block `k`. */
  predicate HoldsKey(bufs: seq<Buf>, b: int, k: Key) {
    0 <= b < |bufs| && bufs[b].valid && KeyOf(bufs[b]) == k
  }

  /** The disk has the latest contents of every block that is in no buffer. */
  ghost predicate DiskAt(s: State, k: Key) {
    k in s.mem && k in s.disk && ((exists b :: HoldsKey(s.bufs, b, k)) || s.mem[k] == s.disk[k])
  }

  ghost predicate DataInv(s: State) {
    && Shaped(s) && s.mem.Keys == s.disk.Keys
    && (forall b :: 0 <= b < |s.bufs| ==> DataAt(s, b))
    && (forall k :: k in s.mem ==> DiskAt(s, k))
  }

  ghost predicate Inv(s: State) {
    CountInv(s) && KeyInv(s.bufs) && DataInv(s)
  }

  // --- each step ------------------------------------------------------------------------------------

  lemma CountStep(s: State, step: Step)
    requires CountInv(s) && Enabled(s, step)
    ensures CountInv(Do(s, step))
  {
    var s' := Do(s, step);
    forall c | 0 <= c < |s.bufs| ensures CountAt(s', c) {
      assert CountAt(s, c);
    }
  }

  lemma KeyStep(s: State, step: Step)
    requires KeyInv(s.bufs) && Enabled(s, step)
    ensures KeyInv(Do(s, step).bufs)
  {
    var s' := Do(s, step);
    if step.Get? && !Cached(s.bufs, step.dev, step.blockno) {
      assert forall c :: 0 <= c < |s.bufs| ==> !HasKey(s.bufs[c], step.dev, step.blockno);
    } else {
      assert forall c :: 0 <= c < |s.bufs| ==> KeyOf(s'.bufs[c]) == KeyOf(s.bufs[c]);
    }
  }

  lemma DataStepAt(s: State, step: Step, c: int)
    requires Inv(s) && Enabled(s, step) && 0 <= c < |s.bufs|
    ensures DataAt(Do(s, step), c)
  {
    assert CountAt(s, step.b) && DataAt(s, step.b) && DataAt(s, c);
  }

  lemma DiskStepAt(s: State, step: Step, k: Key)
    requires Inv(s) && Enabled(s, step) && k in s.mem
    ensures DiskAt(Do(s, step), k)
  {
    assert CountAt(s, step.b) && DataAt(s, step.b) && DiskAt(s, k);
    var s' := Do(s, step);
    if c :| HoldsKey(s.bufs, c, k) {
      assert DataAt(s, c) && CountAt(s, c);
      assert HoldsKey(s'.bufs, c, k) || s'.mem[k] == s'.disk[k];
    } else if step.Use? || step.Write? {
      assert HoldsKey(s.bufs, step.b, KeyOf(s.bufs[step.b]));
    }
  }

  lemma InvStep(s: State, step: Step)
    requires Inv(s) && Enabled(s, step)
    ensures Inv(Do(s, step))
  {
    CountStep(s, step);
    KeyStep(s, step);
    var s' := Do(s, step);
    assert DataAt(s, step.b);
    forall c | 0 <= c < |s'.bufs| ensures DataAt(s', c) {
      DataStepAt(s, step, c);
    }
    forall k | k in s'.mem ensures DiskAt(s', k) {
      DiskStepAt(s, step, k);
    }
  }

  // --- every run ------------------------------------------------------------------------------------------

  /** At boot: nothing cached, every buffer zeroed. */
  ghost predicate Initial(s: State) {
    && Shaped(s) && s.mem == s.disk
    && forall b :: 0 <= b < |s.bufs| ==>
         && KeyOf(s.bufs[b]) == (0, 0) && !s.bufs[b].valid && s.bufs[b].refcnt == 0
         && s.owner[b] == -1 && s.pending[b] == multiset{} && s.leaving[b] == multiset{} && s.pins[b] == 0
  }

  ghost predicate CanRun(s: State, steps: seq<Step>)
    decreases |steps|, 0
  {
    steps != [] ==>
      var before := steps[..|steps| - 1];
      CanRun(s, before) && Enabled(After(s, before), steps[|steps| - 1])
  }

  ghost function After(s: State, steps: seq<Step>): State
    requires CanRun(s, steps)
    decreases |steps|, 1
  {
    if steps == [] then s
    else Do(After(s, steps[..|steps| - 1]), steps[|steps| - 1])
  }

  lemma InitialInv(s: State)
    requires Initial(s)
    ensures Inv(s)
  {
  }

  lemma {:induction false} InvHolds(s: State, steps: seq<Step>)
    requires Initial(s) && CanRun(s, steps)
    ensures Inv(After(s, steps))
    decreases |steps|
  {
    if steps == [] {
      InitialInv(s);
    } else {
      InvHolds(s, steps[..|steps| - 1]);
      InvStep(After(s, steps[..|steps| - 1]), steps[|steps| - 1]);
    }
  }

  /** What was last put into block `k` during the run; at first, what the disk holds. */
  ghost function LastWritten(s: State, steps: seq<Step>, k: Key): Block
    requires CanRun(s, steps) && k in s.disk
  {
    if steps == [] then s.disk[k]
    else
      var before, step := steps[..|steps| - 1], steps[|steps| - 1];
      if step.Use? && KeyOf(After(s, before).bufs[step.b]) == k then step.v else LastWritten(s, before, k)
  }

  lemma {:induction false} MemIsLast(s: State, steps: seq<Step>, k: Key)
    requires Initial(s) && CanRun(s, steps)
    ensures k in After(s, steps).mem <==> k in s.disk
    ensures k in s.disk ==> After(s, steps).mem[k] == LastWritten(s, steps, k)
    decreases |steps|
  {
    if steps != [] {
      var before, step := steps[..|steps| - 1], steps[|steps| - 1];
      MemIsLast(s, before, k);
      InvHolds(s, before);
      assert DataAt(After(s, before), step.b);
    }
  }

  /** `bread` gives the latest contents: a locked buffer that has been read holds what was last
      put into its block, by whichever process, through whichever buffer. */
  lemma ReadsLatest(s: State, steps: seq<Step>, p: int, b: int)
    requires Initial(s) && CanRun(s, steps)
    ensures var t := After(s, steps);
            && Shaped(t)
            && (0 <= b < |t.bufs| && Holds(t, p, b) ==>
                  KeyOf(t.bufs[b]) in s.disk && t.bufs[b].data == LastWritten(s, steps, KeyOf(t.bufs[b])))
  {
    InvHolds(s, steps);
    var t := After(s, steps);
    if 0 <= b < |t.bufs| {
      assert DataAt(t, b);
      MemIsLast(s, steps, KeyOf(t.bufs[b]));
    }
  }

  /** A block other than (0, 0) has at most one buffer. */
  lemma OneBufferPerBlock(s: State, steps: seq<Step>, b: int, c: int)
    requires Initial(s) && CanRun(s, steps)
    ensures var bufs := After(s, steps).bufs;
            0 <= b < |bufs| && 0 <= c < |bufs| && KeyOf(bufs[b]) == KeyOf(bufs[c]) && KeyOf(bufs[b]) != (0, 0) ==>
              b == c
  {
    InvHolds(s, steps);
  }

  /** Recycling takes the least recently used buffer among those that nobody locks, waits for or
      pins, and loses nothing: what it held is on the disk. */
  lemma RecyclesSafely(s: State, steps: seq<Step>, step: Step)
    requires Initial(s) && CanRun(s, steps) && Enabled(After(s, steps), step)
    requires step.Get? && !Cached(After(s, steps).bufs, step.dev, step.blockno)
    ensures var t, b := After(s, steps), step.b;
            && t.owner[b] == -1 && t.pins[b] == 0 && t.pending[b] == multiset{} && t.leaving[b] == multiset{}
            && Oldest(t.bufs, t.hist, b)
            && (t.bufs[b].valid ==> Clean(t, b))
  {
    InvHolds(s, steps);
    assert CountAt(After(s, steps), step.b) && DataAt(After(s, steps), step.b);
  }

  /** A block that is in no buffer is on the disk in its latest form. */
  lemma UncachedIsOnDisk(s: State, steps: seq<Step>, k: Key)
    requires Initial(s) && CanRun(s, steps) && k in s.disk
    ensures var t := After(s, steps);
            k in t.disk && ((exists b :: HoldsKey(t.bufs, b, k)) || t.disk[k] == LastWritten(s, steps, k))
  {
    InvHolds(s, steps);
    MemIsLast(s, steps, k);
    assert DiskAt(After(s, steps), k);
  }
}
