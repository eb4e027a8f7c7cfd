/** The driver and a device that may take and complete requests in any order, at any time.

    The critical sections under `vdisk_lock` are atomic.  The device finds its work through the
    rings and descriptors alone.  `reqs`, `submitted` and `completed` record the history. */
module VirtioRun {
  import opened Modular
  import opened VirtQueue
  import opened VirtioDriver

  datatype Phase = Waiting | Working | Done | Seen

  datatype Req = Req(chain: Chain, buf: int, blockno: int, write: bool, phase: Phase)

  datatype State = State(
    d: Disk,
    busy: set<int>,
    data: map<int, int>,     // what each buffer holds
    blocks: map<int, int>,   // what each disk block holds
    reqs: map<int, Req>,     // the requests in progress, by their first descriptor
    submitted: seq<int>,     // every head ever put in the available ring
    completed: seq<int>,     // every head ever put in the used ring
    taken: nat,              // how many of `submitted` the device has taken
    handled: nat)            // how many of `completed` the driver has seen

  datatype Step =
    | Submit(chain: Chain, buf: int, blockno: int, write: bool)
    | Take
    | Complete(head: int)
    | Interrupt
    | Finish(head: int)

  // --- what the device does ------------------------------------------------------------------

  /** The head that the device finds next in the available ring. */
  function NextHead(s: State): int
    requires 0 < |s.d.avail|
  {
    s.d.avail[s.taken % WRAP % |s.d.avail|]
  }

  /** The device follows the descriptors from `h`: it obeys the command, moves the data, writes
      the status byte, and adds the head to the used ring. */
  function Served(s: State, h: int): State
    requires Shaped(s.d) && 0 <= h < |s.d.free| && CanServe(s, h)
  {
    var second := s.d.desc[s.d.desc[h].next];
    var third := s.d.desc[second.next];
    var op := s.d.ops[s.d.desc[h].target.op];
    var b, n := second.target.buf, op.sector / 2;
    var d' := s.d.(info := s.d.info[third.target.info := s.d.info[third.target.info].(status := 0)],
                   used := s.d.used[s.d.usedIdx % |s.d.used| := h],
                   usedIdx := (s.d.usedIdx + 1) % WRAP);
    if op.write then s.(d := d', blocks := s.blocks[n := s.data[b]])
    else s.(d := d', data := s.data[b := s.blocks[n]])
  }

  /** The descriptors make a request that a block device understands. */
  predicate CanServe(s: State, h: int)
    requires Shaped(s.d) && 0 <= h < |s.d.free|
  {
    var first := s.d.desc[h];
    && first.target.Command? && 0 <= first.target.op < |s.d.ops| && first.hasNext && 0 <= first.next < |s.d.free|
    && var second := s.d.desc[first.next];
    && second.target.Data? && second.hasNext && 0 <= second.next < |s.d.free|
    && second.write == !s.d.ops[first.target.op].write
    && var third := s.d.desc[second.next];
    && third.target.Status? && 0 <= third.target.info < |s.d.info| && third.write && !third.hasNext
    && second.target.buf in s.data && s.d.ops[first.target.op].sector / 2 in s.blocks
  }

  // --- steps -----------------------------------------------------------------------------------

  ghost predicate Enabled(s: State, step: Step) {
    && Shaped(s.d)
    && match step
       case Submit(c, buf, blockno, write) =>
         // the caller holds the buffer's lock, so no other request is using it
         && Lowest(s.d.free, Indices(c)) && InTable(s.d.free, c)
         && buf in s.data && blockno in s.blocks && 0 <= s.d.availIdx
         && forall h :: h in s.reqs ==> s.reqs[h].buf != buf
       case Take => s.taken % WRAP != s.d.availIdx
       case Complete(h) => 0 <= h < |s.d.free| && h in s.reqs && s.reqs[h].phase == Working && CanServe(s, h)
         && 0 <= s.d.usedIdx
       case Interrupt => s.d.seen != s.d.usedIdx && 0 <= s.d.seen && IntrLoop(s.d, s.busy, 1).ok
       case Finish(h) => h in s.reqs && s.reqs[h].buf !in s.busy && Linked(s.d, s.reqs[h].chain) && 0 <= h < |s.d.info|
  }

  ghost function Move(s: State, h: int, phase: Phase): map<int, Req> {
    if h in s.reqs then s.reqs[h := s.reqs[h].(phase := phase)] else s.reqs
  }

  ghost function Do(s: State, step: Step): State
    requires Enabled(s, step)
  {
    match step
    case Submit(c, buf, blockno, write) =>
      s.(d := Submitted(s.d, c, buf, blockno, write), busy := s.busy + {buf},
         reqs := s.reqs[c.head := Req(c, buf, blockno, write, Waiting)],
         submitted := s.submitted + [c.head])
    case Take =>
      s.(taken := s.taken + 1, reqs := Move(s, NextHead(s), Working))
    case Complete(h) =>
      Served(s, h).(completed := s.completed + [h], reqs := Move(s, h, Done))
    case Interrupt =>
      var x := IntrLoop(s.d, s.busy, 1);
      s.(d := x.d, busy := x.busy, handled := s.handled + 1,
         reqs := Move(s, s.d.used[s.d.seen % |s.d.used|], Seen))
    case Finish(h) =>
      var d' := ReleaseChain(s.d, s.reqs[h].chain);
      s.(d := d'.(info := s.d.info[h := s.d.info[h].(buf := -1)]), reqs := s.reqs - {h})
  }

  // --- invariants ---------------------------------------------------------------------------------

  /** The descriptors of a request in progress are as the driver set them up. */
  predicate ReqOk(s: State, h: int, r: Req) {
    && Shaped(s.d) && r.chain.head == h && Linked(s.d, r.chain)
    && s.d.desc[h] == Desc(Command(h), false, true, r.chain.data)
    && s.d.desc[r.chain.data] == Desc(Data(r.buf), !r.write, true, r.chain.status)
    && s.d.desc[r.chain.status] == Desc(Status(h), true, false, 0)
    && s.d.ops[h] == Op(r.write, r.blockno * 2)
    && s.d.info[h].buf == r.buf
    && (r.phase == Done || r.phase == Seen ==> s.d.info[h].status == 0)
    && (r.buf in s.busy <==> r.phase != Seen)
    && r.buf in s.data && r.blockno in s.blocks
  }

  ghost predicate TableInv(s: State) {
    && Shaped(s.d)
    && (forall h :: h in s.reqs ==> ReqOk(s, h, s.reqs[h]))
  }

  /** Some request has descriptor `i` in its chain. */
  ghost predicate Claimed(reqs: map<int, Req>, i: int) {
    exists h :: h in reqs && i in Indices(reqs[h].chain)
  }

  /** Free descriptors and the chains of the requests partition the table. */
  ghost predicate Part(free: seq<bool>, desc: seq<Desc>, reqs: map<int, Req>) {
    && |desc| == |free|
    && (forall i :: 0 <= i < |free| && free[i] ==> desc[i] == ZERO)
    && (forall h :: h in reqs ==> InTable(free, reqs[h].chain) && reqs[h].chain.head == h)
    && (forall i :: 0 <= i < |free| ==> (!free[i] <==> Claimed(reqs, i)))
    && (forall h, g, i :: h in reqs && g in reqs && i in Indices(reqs[h].chain) && i in Indices(reqs[g].chain)
         ==> h == g)
    && (forall h, g :: h in reqs && g in reqs && reqs[h].buf == reqs[g].buf ==> h == g)
  }

  ghost predicate PartInv(s: State) {
    Shaped(s.d) && Part(s.d.free, s.d.desc, s.reqs)
  }

  /** The entries `lo ..` of the history are in the ring. */
  ghost predicate InRing(ring: seq<int>, hist: seq<int>, lo: nat) {
    forall k :: lo <= k < |hist| ==> 0 < |ring| && ring[k % |ring|] == hist[k]
  }

  /** The entries `lo ..` of the history are in the ring, and are the requests in phase `phase`,
      each exactly once. */
  ghost predicate Window(ring: seq<int>, hist: seq<int>, lo: nat, reqs: map<int, Req>, phase: Phase) {
    && lo <= |hist|
    && InRing(ring, hist, lo)
    && (forall k :: lo <= k < |hist| ==> 0 <= hist[k] < |ring| && hist[k] in reqs && reqs[hist[k]].phase == phase)
    && (forall j, k :: lo <= j < k < |hist| ==> hist[j] != hist[k])
    && (forall h :: h in reqs && reqs[h].phase == phase ==> h in hist[lo..])
  }

  ghost predicate AvailInv(s: State) {
    s.d.availIdx == |s.submitted| % WRAP && Window(s.d.avail, s.submitted, s.taken, s.reqs, Waiting)
  }

  ghost predicate UsedInv(s: State) {
    && s.d.usedIdx == |s.completed| % WRAP && s.d.seen == s.handled % WRAP
    && Window(s.d.used, s.completed, s.handled, s.reqs, Done)
  }

  ghost predicate RingInv(s: State) {
    Shaped(s.d) && AvailInv(s) && UsedInv(s)
  }

  ghost predicate Inv(s: State) {
    TableInv(s) && PartInv(s) && RingInv(s)
  }

  // --- pigeonholes ----------------------------------------------------------------------------------

  function Range(n: nat): set<int> {
    if n == 0 then {} else Range(n - 1) + {n - 1}
  }

  lemma {:induction false} RangeIs(n: nat)
    ensures |Range(n)| == n && forall i :: 0 <= i < n <==> i in Range(n)
  {
    if n > 0 {
      RangeIs(n - 1);
    }
  }

  function Elements(xs: seq<int>): set<int> {
    set i | 0 <= i < |xs| :: xs[i]
  }

  lemma {:induction false} ElementsSize(xs: seq<int>)
    requires forall i, j :: 0 <= i < j < |xs| ==> xs[i] != xs[j]
    ensures |Elements(xs)| == |xs|
  {
    if xs != [] {
      var n := |xs| - 1;
      ElementsSize(xs[..n]);
      assert Elements(xs) == Elements(xs[..n]) + {xs[n]};
      assert xs[n] !in Elements(xs[..n]);
    }
  }

  /** Distinct numbers below `n` are at most `n` many. */
  lemma Pigeons(xs: seq<int>, n: nat)
    requires forall i :: 0 <= i < |xs| ==> 0 <= xs[i] < n
    requires forall i, j :: 0 <= i < j < |xs| ==> xs[i] != xs[j]
    ensures |xs| <= n
  {
    RangeIs(n);
    ElementsSize(xs);
    assert Elements(xs) <= Range(n);
    assert Range(n) == Elements(xs) + (Range(n) - Elements(xs));
  }

  // --- windows -----------------------------------------------------------------------------------------

  /** The requests other than `h` are as before. */
  ghost predicate OthersKept(reqs: map<int, Req>, reqs': map<int, Req>, h: int) {
    forall g :: g != h ==> (g in reqs <==> g in reqs') && (g in reqs ==> reqs'[g] == reqs[g])
  }

  /** The same requests are in phase `phase`. */
  ghost predicate SamePhase(reqs: map<int, Req>, reqs': map<int, Req>, phase: Phase) {
    forall g :: (g in reqs && reqs[g].phase == phase) <==> (g in reqs' && reqs'[g].phase == phase)
  }

  lemma WindowRoom(ring: seq<int>, hist: seq<int>, lo: nat, reqs: map<int, Req>, phase: Phase)
    requires Window(ring, hist, lo, reqs, phase)
    ensures |hist| - lo <= |ring|
  {
    Pigeons(hist[lo..], |ring|);
  }

  /** A head that is not in the window can be added: there is a slot that nobody needs. */
  lemma WindowPush(ring: seq<int>, hist: seq<int>, lo: nat, reqs: map<int, Req>, phase: Phase, h: int,
                   reqs': map<int, Req>)
    requires Window(ring, hist, lo, reqs, phase) && 0 <= h < |ring|
    requires h in reqs ==> reqs[h].phase != phase
    requires h in reqs' && reqs'[h].phase == phase
    requires OthersKept(reqs, reqs', h)
    ensures Window(ring[|hist| % |ring| := h], hist + [h], lo, reqs', phase)
  {
    var n := |ring|;
    var hist' := hist + [h];
    forall k | lo <= k < |hist| ensures hist[k] != h {
    }
    Pigeons(hist'[lo..], n);
    var ring' := ring[|hist| % n := h];
    forall k | lo <= k < |hist| ensures ring'[k % n] == hist'[k] {
      ModInjective(n, k, |hist|);
    }
    assert hist'[lo..] == hist[lo..] + [h];
  }

  /** The oldest entry leaves the window. */
  lemma WindowPop(ring: seq<int>, hist: seq<int>, lo: nat, reqs: map<int, Req>, phase: Phase, reqs': map<int, Req>)
    requires Window(ring, hist, lo, reqs, phase) && lo < |hist|
    requires hist[lo] in reqs' && reqs'[hist[lo]].phase != phase && OthersKept(reqs, reqs', hist[lo])
    ensures Window(ring, hist, lo + 1, reqs', phase)
  {
    assert hist[lo..] == [hist[lo]] + hist[lo + 1..];
  }

  /** Changes to requests in other phases do not matter. */
  lemma WindowSame(ring: seq<int>, hist: seq<int>, lo: nat, reqs: map<int, Req>, phase: Phase, reqs': map<int, Req>)
    requires Window(ring, hist, lo, reqs, phase)
    requires SamePhase(reqs, reqs', phase)
    ensures Window(ring, hist, lo, reqs', phase)
  {
    forall k | lo <= k < |hist| ensures hist[k] in reqs' && reqs'[hist[k]].phase == phase {
      assert hist[k] in reqs && reqs[hist[k]].phase == phase;
    }
    forall h | h in reqs' && reqs'[h].phase == phase ensures h in hist[lo..] {
      assert h in reqs && reqs[h].phase == phase;
    }
  }

  /** Adding a head through a 16-bit index. */
  lemma RingPush(ring: seq<int>, idx: int, hist: seq<int>, lo: nat, reqs: map<int, Req>, phase: Phase,
                 h: int, reqs': map<int, Req>)
    requires SizeOk(|ring|) && idx == |hist| % WRAP && Window(ring, hist, lo, reqs, phase) && 0 <= h < |ring|
    requires h in reqs ==> reqs[h].phase != phase
    requires h in reqs' && reqs'[h].phase == phase && OthersKept(reqs, reqs', h)
    ensures (idx + 1) % WRAP == |hist + [h]| % WRAP
    ensures 0 <= idx && Window(ring[idx % |ring| := h], hist + [h], lo, reqs', phase)
  {
    WindowPush(ring, hist, lo, reqs, phase, h, reqs');
    WrapIndex(WRAP, |ring|, |hist|);
    WrapAdd(WRAP, |hist|, 1);
  }

  // --- the rings ------------------------------------------------------------------------------------------

  lemma AvailSubmit(s: State, s': State, h: int)
    requires Shaped(s.d) && AvailInv(s) && 0 <= h < |s.d.avail| && h !in s.reqs
    requires s'.d.avail == s.d.avail[s.d.availIdx % |s.d.avail| := h] && s'.d.availIdx == (s.d.availIdx + 1) % WRAP
    requires s'.submitted == s.submitted + [h] && s'.taken == s.taken
    requires h in s'.reqs && s'.reqs[h].phase == Waiting && OthersKept(s.reqs, s'.reqs, h)
    ensures AvailInv(s')
  {
    RingPush(s.d.avail, s.d.availIdx, s.submitted, s.taken, s.reqs, Waiting, h, s'.reqs);
  }

  lemma AvailSame(s: State, s': State)
    requires AvailInv(s) && s'.d.avail == s.d.avail && s'.d.availIdx == s.d.availIdx
    requires s'.submitted == s.submitted && s'.taken == s.taken && SamePhase(s.reqs, s'.reqs, Waiting)
    ensures AvailInv(s')
  {
    WindowSame(s.d.avail, s.submitted, s.taken, s.reqs, Waiting, s'.reqs);
  }

  lemma UsedSame(s: State, s': State)
    requires UsedInv(s) && s'.d.used == s.d.used && s'.d.usedIdx == s.d.usedIdx && s'.d.seen == s.d.seen
    requires s'.completed == s.completed && s'.handled == s.handled && SamePhase(s.reqs, s'.reqs, Done)
    ensures UsedInv(s')
  {
    WindowSame(s.d.used, s.completed, s.handled, s.reqs, Done, s'.reqs);
  }

  lemma UsedComplete(s: State, s': State, h: int)
    requires Shaped(s.d) && UsedInv(s) && 0 <= h < |s.d.used| && h in s.reqs && s.reqs[h].phase == Working
    requires s'.d.used == s.d.used[s.d.usedIdx % |s.d.used| := h] && s'.d.usedIdx == (s.d.usedIdx + 1) % WRAP
    requires s'.d.seen == s.d.seen && s'.completed == s.completed + [h] && s'.handled == s.handled
    requires h in s'.reqs && s'.reqs[h].phase == Done && OthersKept(s.reqs, s'.reqs, h)
    ensures UsedInv(s')
  {
    RingPush(s.d.used, s.d.usedIdx, s.completed, s.handled, s.reqs, Done, h, s'.reqs);
  }

  lemma AvailPop(s: State, s': State)
    requires AvailInv(s) && s'.d.avail == s.d.avail && s'.d.availIdx == s.d.availIdx && s'.submitted == s.submitted
    requires s.taken < |s.submitted| && s'.taken == s.taken + 1
    requires var h := s.submitted[s.taken];
             h in s'.reqs && s'.reqs[h].phase == Working && OthersKept(s.reqs, s'.reqs, h)
    ensures AvailInv(s')
  {
    WindowPop(s.d.avail, s.submitted, s.taken, s.reqs, Waiting, s'.reqs);
  }

  lemma UsedPop(s: State, s': State)
    requires UsedInv(s) && s'.d.used == s.d.used && s'.d.usedIdx == s.d.usedIdx && s'.completed == s.completed
    requires s.handled < |s.completed| && s'.handled == s.handled + 1 && s'.d.seen == (s.d.seen + 1) % WRAP
    requires var h := s.completed[s.handled]; h in s'.reqs && s'.reqs[h].phase == Seen && OthersKept(s.reqs, s'.reqs, h)
    ensures UsedInv(s')
  {
    WrapAdd(WRAP, s.handled, 1);
    WindowPop(s.d.used, s.completed, s.handled, s.reqs, Done, s'.reqs);
  }

  lemma RingSubmit(s: State, step: Step)
    requires RingInv(s) && PartInv(s) && step.Submit? && Enabled(s, step)
    ensures RingInv(Do(s, step))
  {
    var s' := Do(s, step);
    var h := step.chain.head;
    assert s.d.free[Indices(step.chain)[0]];
    NewHead(s, h);
    AvailSubmit(s, s', h);
    UsedSame(s, s');
  }

  lemma HeadsTaken(s: State)
    requires PartInv(s)
    ensures forall g :: g in s.reqs ==> 0 <= g < |s.d.free| && !s.d.free[g]
  {
    forall g | g in s.reqs ensures 0 <= g < |s.d.free| && !s.d.free[g] {
      assert g == Indices(s.reqs[g].chain)[0];
      assert Claimed(s.reqs, g);
    }
  }

  lemma NewHead(s: State, h: int)
    requires PartInv(s) && 0 <= h < |s.d.free| && s.d.free[h]
    ensures h !in s.reqs
  {
    HeadsTaken(s);
  }

  /** The device takes the oldest request that it has not taken. */
  lemma TakesNext(s: State)
    requires RingInv(s) && s.taken % WRAP != s.d.availIdx
    ensures s.taken < |s.submitted| && NextHead(s) == s.submitted[s.taken]
  {
    WrapIndex(WRAP, |s.d.avail|, s.taken);
  }

  lemma RingTake(s: State)
    requires RingInv(s) && Enabled(s, Take)
    ensures RingInv(Do(s, Take))
  {
    TakesNext(s);
    var s' := Do(s, Take);
    AvailPop(s, s');
    UsedSame(s, s');
  }

  /** What completing a request does to the rings. */
  lemma CompletesRings(s: State, h: int)
    requires Enabled(s, Complete(h))
    ensures var s' := Do(s, Complete(h));
            && Shaped(s'.d) && s'.d.avail == s.d.avail && s'.d.availIdx == s.d.availIdx
            && s'.submitted == s.submitted && s'.taken == s.taken
            && s'.d.used == s.d.used[s.d.usedIdx % |s.d.used| := h] && s'.d.usedIdx == (s.d.usedIdx + 1) % WRAP
            && s'.d.seen == s.d.seen && s'.completed == s.completed + [h] && s'.handled == s.handled
            && s'.reqs == s.reqs[h := s.reqs[h].(phase := Done)]
  {
  }

  lemma RingComplete(s: State, h: int)
    requires RingInv(s) && Enabled(s, Complete(h))
    ensures RingInv(Do(s, Complete(h)))
  {
    CompletesRings(s, h);
    RingCompleted(s, Do(s, Complete(h)), h);
  }

  lemma RingCompleted(s: State, s': State, h: int)
    requires RingInv(s) && 0 <= h < |s.d.used| && h in s.reqs && s.reqs[h].phase == Working
    requires Shaped(s'.d) && s'.d.avail == s.d.avail && s'.d.availIdx == s.d.availIdx
    requires s'.submitted == s.submitted && s'.taken == s.taken
    requires s'.d.used == s.d.used[s.d.usedIdx % |s.d.used| := h] && s'.d.usedIdx == (s.d.usedIdx + 1) % WRAP
    requires s'.d.seen == s.d.seen && s'.completed == s.completed + [h] && s'.handled == s.handled
    requires s'.reqs == s.reqs[h := s.reqs[h].(phase := Done)]
    ensures RingInv(s')
  {
    UsedComplete(s, s', h);
    AvailSame(s, s');
  }

  /** The handler sees the oldest completion that it has not seen. */
  lemma SeesNext(s: State)
    requires RingInv(s) && s.d.seen != s.d.usedIdx
    ensures s.handled < |s.completed| && s.d.used[s.d.seen % |s.d.used|] == s.completed[s.handled]
  {
    WrapIndex(WRAP, |s.d.used|, s.handled);
  }

  lemma RingInterrupt(s: State)
    requires RingInv(s) && Enabled(s, Interrupt)
    ensures RingInv(Do(s, Interrupt))
  {
    SeesNext(s);
    var s' := Do(s, Interrupt);
    assert IntrLoop(s.d, s.busy, 0) == Intrd(s.d, s.busy, true);
    UsedPop(s, s');
    AvailSame(s, s');
  }

  lemma RingFinish(s: State, h: int)
    requires RingInv(s) && TableInv(s) && Enabled(s, Finish(h))
    ensures RingInv(Do(s, Finish(h)))
  {
    var s' := Do(s, Finish(h));
    assert ReqOk(s, h, s.reqs[h]);
    GoneIsSeen(s.reqs, h);
    AvailSame(s, s');
    UsedSame(s, s');
  }

  lemma GoneIsSeen(reqs: map<int, Req>, h: int)
    requires h in reqs && reqs[h].phase == Seen
    ensures SamePhase(reqs, reqs - {h}, Waiting) && SamePhase(reqs, reqs - {h}, Done)
  {
  }

  // --- the descriptor table ---------------------------------------------------------------------------------

  lemma ClaimedWith(reqs: map<int, Req>, h: int, r: Req, i: int)
    requires h !in reqs
    ensures Claimed(reqs[h := r], i) <==> Claimed(reqs, i) || i in Indices(r.chain)
  {
    var more := reqs[h := r];
    if Claimed(reqs, i) {
      var g :| g in reqs && i in Indices(reqs[g].chain);
      assert g in more && i in Indices(more[g].chain);
    }
    if i in Indices(r.chain) {
      assert h in more && i in Indices(more[h].chain);
    }
  }

  /** A request on free descriptors, for a buffer that no other request uses. */
  lemma PartAdded(free: seq<bool>, desc: seq<Desc>, reqs: map<int, Req>, r: Req, desc': seq<Desc>)
    requires Part(free, desc, reqs) && InTable(free, r.chain) && r.chain.head !in reqs
    requires forall i :: i in Indices(r.chain) ==> free[i]
    requires |desc'| == |desc| && forall i :: 0 <= i < |desc| && i !in Indices(r.chain) ==> desc'[i] == desc[i]
    requires forall h :: h in reqs ==> reqs[h].buf != r.buf
    ensures Part(Taken(free, Indices(r.chain)), desc', reqs[r.chain.head := r])
  {
    var free', reqs' := Taken(free, Indices(r.chain)), reqs[r.chain.head := r];
    forall i | 0 <= i < |free| ensures !free'[i] <==> Claimed(reqs', i) {
      ClaimedWith(reqs, r.chain.head, r, i);
    }
    forall h, i | h in reqs && i in Indices(reqs[h].chain) ensures i !in Indices(r.chain) {
      assert Claimed(reqs, i) && i in Indices(reqs[h].chain);
      ChainInTable(free, reqs[h].chain, i);
    }
  }

  lemma ChainInTable(free: seq<bool>, c: Chain, i: int)
    requires InTable(free, c) && i in Indices(c)
    ensures 0 <= i < |free|
  {
  }

  lemma PartSubmit(s: State, step: Step)
    requires PartInv(s) && step.Submit? && Enabled(s, step)
    ensures PartInv(Do(s, step))
  {
    var c := step.chain;
    var s' := Do(s, step);
    AllFree(s.d.free, c);
    NewHead(s, c.head);
    SubmittedDesc(s.d, c, step.buf, step.blockno, step.write);
    PartAdded(s.d.free, s.d.desc, s.reqs, Req(c, step.buf, step.blockno, step.write, Waiting), s'.d.desc);
  }

  lemma AllFree(free: seq<bool>, c: Chain)
    requires Lowest(free, Indices(c)) && InTable(free, c)
    ensures free[c.head] && forall i :: i in Indices(c) ==> free[i]
  {
    assert Indices(c)[0] == c.head && Indices(c)[1] == c.data && Indices(c)[2] == c.status;
  }

  lemma SubmittedDesc(d: Disk, c: Chain, buf: int, blockno: int, write: bool)
    requires Shaped(d) && InTable(d.free, c)
    ensures var d' := Submitted(d, c, buf, blockno, write);
            && Shaped(d') && d'.free == Taken(d.free, Indices(c))
            && forall i :: 0 <= i < |d.desc| && i !in Indices(c) ==> d'.desc[i] == d.desc[i]
  {
    assert Indices(c)[0] == c.head && Indices(c)[1] == c.data && Indices(c)[2] == c.status;
  }

  /** Only the phases of requests have changed. */
  lemma PartSame(free: seq<bool>, desc: seq<Desc>, reqs: map<int, Req>, reqs': map<int, Req>)
    requires Part(free, desc, reqs) && reqs'.Keys == reqs.Keys
    requires forall g :: g in reqs ==> reqs'[g].chain == reqs[g].chain && reqs'[g].buf == reqs[g].buf
    ensures Part(free, desc, reqs')
  {
    forall i ensures Claimed(reqs', i) <==> Claimed(reqs, i) {
      if g :| g in reqs && i in Indices(reqs[g].chain) {
        assert g in reqs' && i in Indices(reqs'[g].chain);
      }
    }
  }

  lemma PartMove(s: State, s': State, h: int, phase: Phase)
    requires PartInv(s) && Shaped(s'.d) && s'.d.free == s.d.free && s'.d.desc == s.d.desc
             && s'.reqs == Move(s, h, phase)
    ensures PartInv(s')
  {
    PartSame(s.d.free, s.d.desc, s.reqs, s'.reqs);
  }

  lemma Released(d: Disk, c: Chain)
    requires Linked(d, c)
    ensures var d' := ReleaseChain(d, c);
            && |d'.free| == |d.free| && |d'.desc| == |d.desc|
            && (forall i :: 0 <= i < |d.free| ==> d'.free[i] == (d.free[i] || i in Indices(c)))
            && (forall i :: 0 <= i < |d.free| ==> d'.desc[i] == if i in Indices(c) then ZERO else d.desc[i])
  {
    assert Indices(c)[0] == c.head && Indices(c)[1] == c.data && Indices(c)[2] == c.status;
  }

  /** Who owns which descriptor once request `h` is gone. */
  lemma ClaimedWithout(free: seq<bool>, desc: seq<Desc>, reqs: map<int, Req>, h: int, i: int)
    requires Part(free, desc, reqs) && h in reqs
    ensures Claimed(reqs - {h}, i) <==> Claimed(reqs, i) && i !in Indices(reqs[h].chain)
  {
    var rest := reqs - {h};
    if g :| g in reqs && i in Indices(reqs[g].chain) && i !in Indices(reqs[h].chain) {
      assert g in rest && i in Indices(rest[g].chain);
    }
    if g :| g in rest && i in Indices(rest[g].chain) {
      assert g in reqs && i in Indices(reqs[g].chain);
    }
  }

  lemma PartRemoved(free: seq<bool>, desc: seq<Desc>, reqs: map<int, Req>, h: int, free': seq<bool>, desc': seq<Desc>)
    requires Part(free, desc, reqs) && h in reqs && |free'| == |free| && |desc'| == |desc|
    requires forall i :: 0 <= i < |free| ==> free'[i] == (free[i] || i in Indices(reqs[h].chain))
    requires forall i :: 0 <= i < |free| ==> desc'[i] == if i in Indices(reqs[h].chain) then ZERO else desc[i]
    ensures Part(free', desc', reqs - {h})
  {
    forall i | 0 <= i < |free| ensures !free'[i] <==> Claimed(reqs - {h}, i) {
      ClaimedWithout(free, desc, reqs, h, i);
    }
  }

  lemma PartFinish(s: State, h: int)
    requires PartInv(s) && Enabled(s, Finish(h))
    ensures PartInv(Do(s, Finish(h)))
  {
    var s' := Do(s, Finish(h));
    Released(s.d, s.reqs[h].chain);
    PartRemoved(s.d.free, s.d.desc, s.reqs, h, s'.d.free, s'.d.desc);
  }

  // --- the requests --------------------------------------------------------------------------------------------

  /** Another request does not notice changes to descriptors that are not its own. */
  lemma OtherChain(s: State, h: int, g: int)
    requires PartInv(s) && h in s.reqs && g in s.reqs && h != g
    ensures forall i :: i in Indices(s.reqs[g].chain) ==> i !in Indices(s.reqs[h].chain)
  {
  }

  /** The states agree on everything that belongs to the request. */
  predicate SameFor(s: State, s': State, h: int, r: Req) {
    && Shaped(s.d) && Shaped(s'.d) && |s'.d.free| == |s.d.free|
    && InTable(s.d.free, r.chain) && r.chain.head == h
    && (forall i :: i in Indices(r.chain)
         ==> 0 <= i < |s.d.free| && s'.d.free[i] == s.d.free[i] && s'.d.desc[i] == s.d.desc[i])
    && s'.d.ops[h] == s.d.ops[h] && s'.d.info[h] == s.d.info[h]
    && (r.buf in s'.busy <==> r.buf in s.busy)
    && s'.data.Keys == s.data.Keys && s'.blocks.Keys == s.blocks.Keys
  }

  lemma ReqKept(s: State, s': State, h: int, r: Req)
    requires ReqOk(s, h, r) && SameFor(s, s', h, r)
    ensures ReqOk(s', h, r)
  {
    var c := r.chain;
    assert Indices(c)[0] == c.head && Indices(c)[1] == c.data && Indices(c)[2] == c.status;
    assert c.head in Indices(c) && c.data in Indices(c) && c.status in Indices(c);
  }

  lemma SubmitSame(s: State, step: Step, h: int)
    requires PartInv(s) && step.Submit? && Enabled(s, step) && h in s.reqs
    ensures SameFor(s, Do(s, step), h, s.reqs[h])
  {
    var c := step.chain;
    assert Indices(c)[0] == c.head && Indices(c)[1] == c.data && Indices(c)[2] == c.status;
    assert h == Indices(s.reqs[h].chain)[0];
    forall i | i in Indices(s.reqs[h].chain) ensures 0 <= i < |s.d.free| && i !in Indices(c) {
      assert !s.d.free[i];
    }
  }

  lemma SubmitReqOk(s: State, step: Step)
    requires Shaped(s.d) && step.Submit? && Enabled(s, step)
    ensures var c := step.chain;
            ReqOk(Do(s, step), c.head, Req(c, step.buf, step.blockno, step.write, Waiting))
  {
  }

  lemma SubmitReq(s: State, step: Step, h: int)
    requires TableInv(s) && PartInv(s) && step.Submit? && Enabled(s, step) && h in Do(s, step).reqs
    ensures ReqOk(Do(s, step), h, Do(s, step).reqs[h])
  {
    if h == step.chain.head {
      SubmitReqOk(s, step);
    } else {
      SubmitSame(s, step, h);
      ReqKept(s, Do(s, step), h, s.reqs[h]);
    }
  }

  lemma TableSubmit(s: State, step: Step)
    requires TableInv(s) && PartInv(s) && step.Submit? && Enabled(s, step)
    ensures TableInv(Do(s, step))
  {
    SubmittedDesc(s.d, step.chain, step.buf, step.blockno, step.write);
    forall h | h in Do(s, step).reqs ensures ReqOk(Do(s, step), h, Do(s, step).reqs[h]) {
      SubmitReq(s, step, h);
    }
  }

  lemma TableTake(s: State)
    requires TableInv(s) && RingInv(s) && Enabled(s, Take)
    ensures TableInv(Do(s, Take))
  {
    TakesNext(s);
    var s' := Do(s, Take);
    forall h | h in s'.reqs ensures ReqOk(s', h, s'.reqs[h]) {
      assert ReqOk(s, h, s.reqs[h]);
    }
  }

  /** The device serves the request that the driver meant: it moves data between the block and
      the buffer that were asked for, in the direction that was asked for. */
  lemma ServesRequest(s: State, h: int)
    requires TableInv(s) && h in s.reqs
    ensures 0 <= h < |s.d.free| && CanServe(s, h)
    ensures var r, t := s.reqs[h], Served(s, h);
            && t.blocks == (if r.write then s.blocks[r.blockno := s.data[r.buf]] else s.blocks)
            && t.data == (if r.write then s.data else s.data[r.buf := s.blocks[r.blockno]])
            && t.d == s.d.(info := s.d.info[h := s.d.info[h].(status := 0)],
                           used := s.d.used[s.d.usedIdx % |s.d.used| := h],
                           usedIdx := (s.d.usedIdx + 1) % WRAP)
            && t == s.(d := t.d, blocks := t.blocks, data := t.data)
  {
    assert ReqOk(s, h, s.reqs[h]);
  }

  lemma TableComplete(s: State, h: int)
    requires TableInv(s) && Enabled(s, Complete(h))
    ensures TableInv(Do(s, Complete(h)))
  {
    ServesRequest(s, h);
    var s' := Do(s, Complete(h));
    forall g | g in s'.reqs ensures ReqOk(s', g, s'.reqs[g]) {
      assert ReqOk(s, g, s.reqs[g]);
    }
  }

  /** The interrupt handler never meets a bad status or a null buffer: the entry that it looks
      at is a request whose buffer is still busy. */
  lemma InterruptSafe(s: State)
    requires TableInv(s) && RingInv(s) && s.d.seen != s.d.usedIdx
    ensures var h := s.completed[s.handled];
            && s.handled < |s.completed| && h in s.reqs && s.reqs[h].phase == Done
            && IntrLoop(s.d, s.busy, 1) == Intrd(s.d.(seen := (s.d.seen + 1) % WRAP), s.busy - {s.reqs[h].buf}, true)
            && s.reqs[h].buf in s.busy
  {
    SeesNext(s);
    var h := s.completed[s.handled];
    assert ReqOk(s, h, s.reqs[h]);
    assert IntrLoop(s.d, s.busy, 0) == Intrd(s.d, s.busy, true);
  }

  /** The handler has seen that request `h` is done. */
  function Noticed(s: State, h: int): State
    requires h in s.reqs
  {
    s.(d := s.d.(seen := (s.d.seen + 1) % WRAP), busy := s.busy - {s.reqs[h].buf}, handled := s.handled + 1,
       reqs := s.reqs[h := s.reqs[h].(phase := Seen)])
  }

  /** One round of the interrupt handler's loop notices the oldest completion, and only that. */
  lemma InterruptIs(s: State)
    requires TableInv(s) && RingInv(s) && Enabled(s, Interrupt)
    ensures s.handled < |s.completed|
    ensures var h := s.completed[s.handled];
            && h in s.reqs && s.reqs[h].phase == Done
            && Do(s, Interrupt) == Noticed(s, h)
  {
    InterruptSafe(s);
    SeesNext(s);
  }

  lemma NoticedReqOk(s: State, h: int, g: int)
    requires h in s.reqs && s.reqs[h].phase == Done && g in s.reqs && ReqOk(s, g, s.reqs[g])
    requires g != h ==> s.reqs[g].buf != s.reqs[h].buf
    ensures ReqOk(Noticed(s, h), g, Noticed(s, h).reqs[g])
  {
  }

  lemma TableInterrupt(s: State)
    requires TableInv(s) && PartInv(s) && RingInv(s) && Enabled(s, Interrupt)
    ensures TableInv(Do(s, Interrupt))
  {
    InterruptIs(s);
    TableNoticed(s, s.completed[s.handled]);
  }

  lemma TableNoticed(s: State, h: int)
    requires TableInv(s) && PartInv(s) && h in s.reqs && s.reqs[h].phase == Done
    ensures TableInv(Noticed(s, h))
  {
    forall g | g in s.reqs ensures ReqOk(Noticed(s, h), g, Noticed(s, h).reqs[g]) {
      NoticedReqOk(s, h, g);
    }
  }

  lemma FinishSame(s: State, h: int, g: int)
    requires PartInv(s) && Enabled(s, Finish(h)) && g in s.reqs && g != h
    ensures SameFor(s, Do(s, Finish(h)), g, s.reqs[g])
  {
    Released(s.d, s.reqs[h].chain);
    OtherChain(s, h, g);
    var c := s.reqs[g].chain;
    assert Indices(c)[0] == c.head && Indices(c)[1] == c.data && Indices(c)[2] == c.status;
  }

  lemma FinishReqOk(s: State, h: int, g: int)
    requires PartInv(s) && Enabled(s, Finish(h)) && g in s.reqs && g != h && ReqOk(s, g, s.reqs[g])
    ensures ReqOk(Do(s, Finish(h)), g, s.reqs[g])
  {
    FinishSame(s, h, g);
    ReqKept(s, Do(s, Finish(h)), g, s.reqs[g]);
  }

  lemma TableFinish(s: State, h: int)
    requires TableInv(s) && PartInv(s) && Enabled(s, Finish(h))
    ensures TableInv(Do(s, Finish(h)))
  {
    var s' := Do(s, Finish(h));
    assert Shaped(s'.d) by {
      Released(s.d, s.reqs[h].chain);
    }
    forall g | g in s'.reqs ensures ReqOk(s', g, s'.reqs[g]) {
      FinishReqOk(s, h, g);
    }
  }

  // --- every run ---------------------------------------------------------------------------------------------------

  ghost predicate Initial(s: State) {
    && Shaped(s.d) && s.reqs == map[] && s.busy == {}
    && s.submitted == [] && s.completed == [] && s.taken == 0 && s.handled == 0
    && s.d.availIdx == 0 && s.d.usedIdx == 0 && s.d.seen == 0
    && (forall i :: 0 <= i < |s.d.free| ==> s.d.free[i] && s.d.desc[i] == ZERO)
  }

  ghost predicate CanRun(s: State, steps: seq<Step>)
    decreases |steps|, 0
  {
    steps != [] ==>
      var init := steps[..|steps| - 1];
      CanRun(s, init) && Enabled(After(s, init), steps[|steps| - 1])
  }

  ghost function After(s: State, steps: seq<Step>): State
    requires CanRun(s, steps)
    decreases |steps|, 1
  {
    if steps == [] then s
    else Do(After(s, steps[..|steps| - 1]), steps[|steps| - 1])
  }

  lemma InvStep(s: State, step: Step)
    requires Inv(s) && Enabled(s, step)
    ensures Inv(Do(s, step))
  {
    match step
    case Submit(c, buf, blockno, write) =>
      RingSubmit(s, step);
      PartSubmit(s, step);
      TableSubmit(s, step);
    case Take =>
      RingTake(s);
      PartMove(s, Do(s, step), NextHead(s), Working);
      TableTake(s);
    case Complete(h) =>
      RingComplete(s, h);
      ServesRequest(s, h);
      PartMove(s, Do(s, step), h, Done);
      TableComplete(s, h);
    case Interrupt =>
      RingInterrupt(s);
      InterruptSafe(s);
      PartMove(s, Do(s, step), s.d.used[s.d.seen % |s.d.used|], Seen);
      TableInterrupt(s);
    case Finish(h) =>
      RingFinish(s, h);
      PartFinish(s, h);
      TableFinish(s, h);
  }

  lemma {:induction false} InvHolds(s: State, steps: seq<Step>)
    requires Initial(s) && CanRun(s, steps)
    ensures Inv(After(s, steps))
    decreases |steps|
  {
    if steps != [] {
      InvHolds(s, steps[..|steps| - 1]);
      InvStep(After(s, steps[..|steps| - 1]), steps[|steps| - 1]);
    }
  }

  /** Descriptor `i` is free and zeroed, or it belongs to exactly one request in progress. */
  ghost predicate FreeOrOwned(t: State, i: int)
    requires Shaped(t.d) && 0 <= i < |t.d.free|
  {
    if t.d.free[i] then t.d.desc[i] == ZERO && forall h :: h in t.reqs ==> i !in Indices(t.reqs[h].chain)
    else exists h :: OnlyOwner(t, h, i)
  }

  ghost predicate OnlyOwner(t: State, h: int, i: int) {
    && h in t.reqs && i in Indices(t.reqs[h].chain)
    && forall g :: g in t.reqs && i in Indices(t.reqs[g].chain) ==> g == h
  }

  lemma Partitioned(t: State, i: int)
    requires PartInv(t) && 0 <= i < |t.d.free|
    ensures FreeOrOwned(t, i)
  {
    if !t.d.free[i] {
      var h :| h in t.reqs && i in Indices(t.reqs[h].chain);
      assert OnlyOwner(t, h, i);
    }
  }

  /** In every reachable state the free descriptors and the chains partition the table. */
  lemma TablePartitioned(s: State, steps: seq<Step>, i: int)
    requires Initial(s) && CanRun(s, steps) && 0 <= i < |After(s, steps).d.free|
    ensures Shaped(After(s, steps).d) && FreeOrOwned(After(s, steps), i)
  {
    InvHolds(s, steps);
    Partitioned(After(s, steps), i);
  }

  lemma RequestSafe(t: State, h: int)
    requires TableInv(t) && RingInv(t) && h in t.reqs
    ensures t.reqs[h].phase == Working ==> Enabled(t, Complete(h))
    ensures t.reqs[h].buf !in t.busy ==> Enabled(t, Finish(h))
  {
    ServesRequest(t, h);
    assert ReqOk(t, h, t.reqs[h]);
  }

  /** No reachable state leads to a panic: the handler finds status 0 and a busy buffer, the
      device understands every request that it took, and a chain to be freed is linked and not
      free already. */
  lemma NeverPanics(s: State, steps: seq<Step>)
    requires Initial(s) && CanRun(s, steps)
    ensures var t := After(s, steps);
            && (t.d.seen != t.d.usedIdx ==> Enabled(t, Interrupt))
            && (forall h :: h in t.reqs && t.reqs[h].phase == Working ==> Enabled(t, Complete(h)))
            && (forall h :: h in t.reqs && t.reqs[h].buf !in t.busy ==> Enabled(t, Finish(h)))
  {
    InvHolds(s, steps);
    Safe(After(s, steps));
  }

  lemma Safe(t: State)
    requires TableInv(t) && RingInv(t)
    ensures t.d.seen != t.d.usedIdx ==> Enabled(t, Interrupt)
    ensures forall h :: h in t.reqs && t.reqs[h].phase == Working ==> Enabled(t, Complete(h))
    ensures forall h :: h in t.reqs && t.reqs[h].buf !in t.busy ==> Enabled(t, Finish(h))
  {
    if t.d.seen != t.d.usedIdx {
      InterruptSafe(t);
    }
    forall h | h in t.reqs
      ensures (t.reqs[h].phase == Working ==> Enabled(t, Complete(h)))
              && (t.reqs[h].buf !in t.busy ==> Enabled(t, Finish(h)))
    {
      RequestSafe(t, h);
    }
  }

  /** The available ring holds what is submitted and not yet taken, however often the 16-bit
      index has wrapped around: the device takes every head once and in order. */
  ghost predicate TakenInOrder(t: State) {
    && t.taken <= |t.submitted| <= t.taken + |t.d.avail|
    && (Enabled(t, Take) <==> t.taken < |t.submitted|)
    && (Enabled(t, Take) ==> NextHead(t) == t.submitted[t.taken])
  }

  /** The same for the used ring and the interrupt handler. */
  ghost predicate SeenInOrder(t: State) {
    && t.handled <= |t.completed| <= t.handled + |t.d.used|
    && (Enabled(t, Interrupt) <==> t.handled < |t.completed|)
    && (Enabled(t, Interrupt) ==> t.d.used[t.d.seen % |t.d.used|] == t.completed[t.handled])
  }

  lemma RingsLoseNothing(s: State, steps: seq<Step>)
    requires Initial(s) && CanRun(s, steps)
    ensures TakenInOrder(After(s, steps)) && SeenInOrder(After(s, steps))
  {
    InvHolds(s, steps);
    AvailInOrder(After(s, steps));
    UsedInOrder(After(s, steps));
  }

  lemma AvailInOrder(t: State)
    requires RingInv(t)
    ensures TakenInOrder(t)
  {
    WindowRoom(t.d.avail, t.submitted, t.taken, t.reqs, Waiting);
    Unequal(|t.d.avail|, t.taken, |t.submitted|);
    if t.taken < |t.submitted| {
      TakesNext(t);
    }
  }

  lemma UsedInOrder(t: State)
    requires RingInv(t) && TableInv(t)
    ensures SeenInOrder(t)
  {
    WindowRoom(t.d.used, t.completed, t.handled, t.reqs, Done);
    Unequal(|t.d.used|, t.handled, |t.completed|);
    if t.handled < |t.completed| {
      InterruptSafe(t);
      SeesNext(t);
    }
  }

  /** Two counts no more than a ring apart are equal when they are equal modulo 2^16. */
  lemma Unequal(size: int, x: nat, y: nat)
    requires 0 < size < WRAP && 0 <= y - x <= size
    ensures x % WRAP == y % WRAP <==> x == y
  {
    ModInjective(WRAP, x, y);
  }

  /** A buffer stops being busy only when the handler sees the completion of its own request,
      and by then the device has reported success for it. */
  lemma ClearedByOwnCompletion(s: State, steps: seq<Step>, step: Step, buf: int)
    requires Initial(s) && CanRun(s, steps) && Enabled(After(s, steps), step)
    requires buf in After(s, steps).busy && buf !in Do(After(s, steps), step).busy
    ensures var t := After(s, steps);
            && step == Interrupt && t.handled < |t.completed|
            && var h := t.completed[t.handled];
            h in t.reqs && t.reqs[h].buf == buf && t.reqs[h].phase == Done && 0 <= h < |t.d.info|
              && t.d.info[h].status == 0
  {
    InvHolds(s, steps);
    var t := After(s, steps);
    if step != Interrupt {
      StaysBusy(t, step);
    } else {
      OwnCompletion(t, buf);
    }
  }

  lemma StaysBusy(t: State, step: Step)
    requires Enabled(t, step) && step != Interrupt
    ensures t.busy <= Do(t, step).busy
  {
  }

  lemma OwnCompletion(t: State, buf: int)
    requires TableInv(t) && RingInv(t) && Enabled(t, Interrupt) && buf in t.busy && buf !in Do(t, Interrupt).busy
    ensures t.handled < |t.completed|
    ensures var h := t.completed[t.handled];
            h in t.reqs && t.reqs[h].buf == buf && t.reqs[h].phase == Done && 0 <= h < |t.d.info|
              && t.d.info[h].status == 0
  {
    InterruptIs(t);
    var h := t.completed[t.handled];
    assert ReqOk(t, h, t.reqs[h]);
  }
}
