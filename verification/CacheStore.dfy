/** The buffer cache gives the log the store of blocks that `LogCode` is written over.

    A run of the cache, seen from one device, is a run of `LogCode.Store`: changing a locked buffer
    is a change of its dirty block, `bwrite` is `Bwrite`, `bpin` and `bunpin` are `Bpin` and
    `Bunpin`, and all the other steps, of whichever process, leave the store as it is. */
module CacheStore {
  import opened BufCache
  import opened CacheRun
  import LogCode

  type Store = LogCode.Store

  /** What the step `step` in the cache state `t` does to the store of device `dev`. */
  ghost function StoreStep(st: Store, t: State, step: Step, dev: int): Store
    requires Enabled(t, step)
  {
    var buf := t.bufs[step.b];
    if buf.dev != dev then st
    else if step.Use? then st.(dirty := st.dirty[buf.blockno := step.v])
    else if step.Write? then st.Bwrite(buf.blockno, buf.data)
    else if step.Pin? then st.Bpin(buf.blockno)
    else if step.Unpin? && t.pins[step.b] == 1 then st.Bunpin(buf.blockno)
    else st
  }

  /** The blocks of device `dev`. */
  ghost function BlocksOf(disk: map<Key, Block>, dev: int): set<int> {
    set k | k in disk && k.0 == dev :: k.1
  }

  ghost function DiskOf(disk: map<Key, Block>, dev: int): (d: map<int, Block>)
    ensures forall n: int :: n in d <==> (dev, n) in disk
    ensures forall n: int :: n in d ==> d[n] == disk[(dev, n)]
  {
    assert forall n: int :: (dev, n) in disk ==> (dev, n).1 in BlocksOf(disk, dev);
    map n | n in BlocksOf(disk, dev) :: disk[(dev, n)]
  }

  /** The store of device `dev` after the run. */
  ghost function StoreAfter(s: State, steps: seq<Step>, dev: int): Store
    requires CanRun(s, steps)
    decreases |steps|
  {
    if steps == [] then LogCode.Store(DiskOf(s.disk, dev), map[], {}, [])
    else
      var before := steps[..|steps| - 1];
      StoreStep(StoreAfter(s, before, dev), After(s, before), steps[|steps| - 1], dev)
  }

  ghost predicate Pinned(t: State, b: int, dev: int, n: int) {
    0 <= b < |t.bufs| && 0 <= b < |t.pins| && t.pins[b] > 0 && KeyOf(t.bufs[b]) == (dev, n)
  }

  /** The store has the disk of the device, and reads as a plain disk would. */
  ghost predicate SameBlocks(st: Store, disk: map<Key, Block>, mem: map<Key, Block>, dev: int) {
    && (forall n: int :: n in st.disk <==> (dev, n) in disk)
    && (forall n: int :: n in st.dirty ==> n in st.disk)
    && (forall n: int :: n in st.disk ==> st.disk[n] == disk[(dev, n)])
    && (forall n: int :: n in st.disk ==> (dev, n) in mem && st.Bread(n) == mem[(dev, n)])
  }

  ghost predicate SamePins(pins: set<int>, t: State, dev: int) {
    forall n: int :: n in pins <==> exists b :: Pinned(t, b, dev, n)
  }

  ghost predicate Mirrors(st: Store, t: State, dev: int) {
    SameBlocks(st, t.disk, t.mem, dev) && SamePins(st.pins, t, dev)
  }

  // --- each step -----------------------------------------------------------------------------------

  lemma UseBlocks(st: Store, disk: map<Key, Block>, mem: map<Key, Block>, k: Key, v: Block, dev: int)
    requires SameBlocks(st, disk, mem, dev) && k in disk
    ensures SameBlocks(if k.0 == dev then st.(dirty := st.dirty[k.1 := v]) else st, disk, mem[k := v], dev)
  {
    assert k == (k.0, k.1);
  }

  lemma WriteBlocks(st: Store, disk: map<Key, Block>, mem: map<Key, Block>, k: Key, dev: int)
    requires SameBlocks(st, disk, mem, dev) && k in disk && k in mem
    ensures SameBlocks(if k.0 == dev then st.Bwrite(k.1, mem[k]) else st, disk[k := mem[k]], mem, dev)
  {
    assert k == (k.0, k.1);
  }

  lemma BlocksStep(st: Store, t: State, step: Step, dev: int)
    requires Inv(t) && Enabled(t, step) && SameBlocks(st, t.disk, t.mem, dev)
    ensures SameBlocks(StoreStep(st, t, step, dev), Do(t, step).disk, Do(t, step).mem, dev)
  {
    assert DataAt(t, step.b);
    if step.Use? {
      UseBlocks(st, t.disk, t.mem, KeyOf(t.bufs[step.b]), step.v, dev);
    } else if step.Write? {
      WriteBlocks(st, t.disk, t.mem, KeyOf(t.bufs[step.b]), dev);
    }
  }

  /** A step moves the pins of its own buffer only, and a buffer that it recycles has none. */
  lemma PinnedStep(t: State, step: Step, c: int, dev: int, n: int)
    requires Inv(t) && Enabled(t, step)
    ensures c != step.b ==> (Pinned(Do(t, step), c, dev, n) <==> Pinned(t, c, dev, n))
    ensures Pinned(Do(t, step), step.b, dev, n)
       <==> (if step.Pin? then KeyOf(t.bufs[step.b]) == (dev, n)
             else Pinned(t, step.b, dev, n) && !(step.Unpin? && t.pins[step.b] == 1))
  {
    assert CountAt(t, step.b);
  }

  lemma PinsStep(st: Store, t: State, step: Step, dev: int)
    requires Inv(t) && Enabled(t, step) && SamePins(st.pins, t, dev)
    ensures SamePins(StoreStep(st, t, step, dev).pins, Do(t, step), dev)
  {
    var pins', t' := StoreStep(st, t, step, dev).pins, Do(t, step);
    assert DataAt(t, step.b);
    forall n: int ensures n in pins' <==> exists c :: Pinned(t', c, dev, n) {
      forall c ensures Pinned(t', c, dev, n) ==> n in pins' {
        PinnedStep(t, step, c, dev, n);
      }
      if n in pins' {
        var c := if step.Pin? && KeyOf(t.bufs[step.b]) == (dev, n) then step.b else PinOf(t, dev, n);
        PinnedStep(t, step, c, dev, n);
        assert Pinned(t', c, dev, n);
      }
    }
  }

  ghost function PinOf(t: State, dev: int, n: int): (c: int)
    requires exists b :: Pinned(t, b, dev, n)
    ensures Pinned(t, c, dev, n)
  {
    var b :| Pinned(t, b, dev, n); b
  }

  // --- every run -------------------------------------------------------------------------------------

  /** In every run of the cache, by any processes, the store is what the cache and the disk hold. */
  lemma {:induction false} RunMirrors(s: State, steps: seq<Step>, dev: int)
    requires Initial(s) && CanRun(s, steps)
    ensures Mirrors(StoreAfter(s, steps, dev), After(s, steps), dev)
    decreases |steps|
  {
    if steps != [] {
      var before, step := steps[..|steps| - 1], steps[|steps| - 1];
      RunMirrors(s, before, dev);
      InvHolds(s, before);
      BlocksStep(StoreAfter(s, before, dev), After(s, before), step, dev);
      PinsStep(StoreAfter(s, before, dev), After(s, before), step, dev);
    }
  }

  /** `bread` is `Bread`: a locked buffer that has been read holds what the store gives. */
  lemma ReadIsBread(s: State, steps: seq<Step>, p: int, b: int)
    requires Initial(s) && CanRun(s, steps)
    ensures var t := After(s, steps);
            && Shaped(t)
            && (0 <= b < |t.bufs| && Holds(t, p, b) ==>
                  t.bufs[b].data == StoreAfter(s, steps, t.bufs[b].dev).Bread(t.bufs[b].blockno))
  {
    InvHolds(s, steps);
    var t := After(s, steps);
    if 0 <= b < |t.bufs| && Holds(t, p, b) {
      assert DataAt(t, b);
      RunMirrors(s, steps, t.bufs[b].dev);
    }
  }

  lemma RunMore(s: State, steps: seq<Step>, step: Step, dev: int)
    requires CanRun(s, steps) && Enabled(After(s, steps), step)
    ensures CanRun(s, steps + [step]) && After(s, steps + [step]) == Do(After(s, steps), step)
    ensures StoreAfter(s, steps + [step], dev) == StoreStep(StoreAfter(s, steps, dev), After(s, steps), step, dev)
  {
    assert (steps + [step])[..|steps|] == steps;
  }

  /** A process that does not hold the lock leaves a locked buffer alone. */
  lemma LockKeeps(t: State, step: Step, p: int, b: int)
    requires Inv(t) && Enabled(t, step) && 0 <= b < |t.bufs| && Holds(t, p, b) && step.p != p
    ensures Shaped(Do(t, step)) && |Do(t, step).bufs| == |t.bufs| && Holds(Do(t, step), p, b)
    ensures KeyOf(Do(t, step).bufs[b]) == KeyOf(t.bufs[b]) && Do(t, step).bufs[b].data == t.bufs[b].data
  {
    assert CountAt(t, b);
  }

  /** Process `p` holds buffer `b` of block `k`, with contents `v`. */
  ghost predicate HoldsBlock(t: State, p: int, b: int, k: Key, v: Block) {
    Shaped(t) && 0 <= b < |t.bufs| && Holds(t, p, b) && KeyOf(t.bufs[b]) == k && t.bufs[b].data == v
  }

  lemma {:induction false} HeldThrough(s: State, steps: seq<Step>, more: seq<Step>, p: int, b: int, k: Key, v: Block)
    requires Initial(s) && CanRun(s, steps) && HoldsBlock(After(s, steps), p, b, k, v) && CanRun(s, steps + more)
    requires forall i :: 0 <= i < |more| ==> more[i].p != p
    ensures HoldsBlock(After(s, steps + more), p, b, k, v)
    decreases |more|
  {
    if more == [] {
      assert steps + more == steps;
    } else {
      var some, last := more[..|more| - 1], more[|more| - 1];
      assert (steps + more)[..|steps + more| - 1] == steps + some;
      HeldThrough(s, steps, some, p, b, k, v);
      InvHolds(s, steps + some);
      LockKeeps(After(s, steps + some), last, p, b);
    }
  }

  /** Changing a locked buffer makes its block dirty in the store.  Then, whatever the other
      processes do meanwhile, `bwrite` is `Bwrite` of what was put there.  If they do nothing, the
      two together are one `Bwrite`. */
  lemma WriteIsBwrite(s: State, steps: seq<Step>, p: int, b: int, k: Key, was: Block, v: Block, more: seq<Step>)
    requires Initial(s) && CanRun(s, steps) && HoldsBlock(After(s, steps), p, b, k, was)
    requires CanRun(s, steps + [Use(p, b, v)] + more) && forall i :: 0 <= i < |more| ==> more[i].p != p
    ensures CanRun(s, steps + [Use(p, b, v)])
    ensures var st := StoreAfter(s, steps, k.0);
            StoreAfter(s, steps + [Use(p, b, v)], k.0) == st.(dirty := st.dirty[k.1 := v])
    ensures CanRun(s, steps + [Use(p, b, v)] + more + [Write(p, b)])
    ensures StoreAfter(s, steps + [Use(p, b, v)] + more + [Write(p, b)], k.0)
         == StoreAfter(s, steps + [Use(p, b, v)] + more, k.0).Bwrite(k.1, v)
    ensures more == [] ==>
              StoreAfter(s, steps + [Use(p, b, v)] + more + [Write(p, b)], k.0)
              == StoreAfter(s, steps, k.0).Bwrite(k.1, v)
  {
    RunMore(s, steps, Use(p, b, v), k.0);
    HeldThrough(s, steps + [Use(p, b, v)], more, p, b, k, v);
    RunMore(s, steps + [Use(p, b, v)] + more, Write(p, b), k.0);
    if more == [] {
      var st := StoreAfter(s, steps, k.0);
      assert steps + [Use(p, b, v)] + more == steps + [Use(p, b, v)];
      assert st.dirty[k.1 := v] - {k.1} == st.dirty - {k.1};
    }
  }

  /** Where the store differs from the disk there is a buffer that is locked or pinned, so nobody
      recycles it. */
  lemma DirtyIsKept(s: State, steps: seq<Step>, dev: int, n: int) returns (b: int)
    requires Initial(s) && CanRun(s, steps)
    requires var st := StoreAfter(s, steps, dev);
             n in st.disk && st.Bread(n) != st.disk[n]
    ensures var t := After(s, steps);
            Shaped(t) && HoldsKey(t.bufs, b, (dev, n)) && (t.owner[b] != -1 || t.pins[b] > 0)
  {
    InvHolds(s, steps);
    RunMirrors(s, steps, dev);
    var t := After(s, steps);
    assert DiskAt(t, (dev, n));
    b :| HoldsKey(t.bufs, b, (dev, n));
    assert DataAt(t, b);
  }
}
