/** The ring buffer of a pipe, whose 32-bit counters of bytes read and written wrap around. */
module PipeRing {
  import opened Modular

  /** The counters are `uint`s. */
  const WRAP: int := 0x1_0000_0000

  predicate SizeOk(size: int) {
    0 < size < WRAP && WRAP % size == 0
  }

  datatype Ring = Ring(data: seq<int>, nread: int, nwrite: int)

  /** The test for a full pipe, on the wrapped counters. */
  predicate IsFull(r: Ring) {
    r.nwrite == (r.nread + |r.data|) % WRAP
  }

  predicate IsEmpty(r: Ring) {
    r.nread == r.nwrite
  }

  /** `pi->data[pi->nwrite++ % PIPESIZE] = ch` */
  function Put(r: Ring, ch: int): Ring {
    Ring(if r.data == [] then [] else r.data[r.nwrite % |r.data| := ch], r.nread, (r.nwrite + 1) % WRAP)
  }

  /** `ch = pi->data[pi->nread++ % PIPESIZE]` */
  function Get(r: Ring): (Ring, int) {
    (r.(nread := (r.nread + 1) % WRAP), if r.data == [] then 0 else r.data[r.nread % |r.data|])
  }

  /** After `stored` went in and `removed` came out, the ring holds the difference. */
  ghost predicate RingInv(r: Ring, stored: seq<int>, removed: seq<int>) {
    && SizeOk(|r.data|)
    && removed <= stored
    && |stored| - |removed| <= |r.data|
    && r.nwrite == |stored| % WRAP
    && r.nread == |removed| % WRAP
    && (forall k :: |removed| <= k < |stored| ==> r.data[k % |r.data|] == stored[k])
  }

  // --- the ring is a queue -------------------------------------------------------------------

  /** The tests on wrapped counters mean what they say. */
  lemma TestsMean(r: Ring, stored: seq<int>, removed: seq<int>)
    requires RingInv(r, stored, removed)
    ensures IsFull(r) <==> |stored| - |removed| == |r.data|
    ensures IsEmpty(r) <==> stored == removed
  {
    WrapAdd(WRAP, |removed|, |r.data|);
    if IsFull(r) {
      ModInjective(WRAP, |stored|, |removed| + |r.data|);
    }
    if IsEmpty(r) {
      ModInjective(WRAP, |removed|, |stored|);
    }
  }

  lemma PutKeeps(r: Ring, stored: seq<int>, removed: seq<int>, ch: int)
    requires RingInv(r, stored, removed) && !IsFull(r)
    ensures RingInv(Put(r, ch), stored + [ch], removed)
  {
    TestsMean(r, stored, removed);
    WrapIndex(WRAP, |r.data|, |stored|);
    WrapAdd(WRAP, |stored|, 1);
    var r', size := Put(r, ch), |r.data|;
    forall k | |removed| <= k < |stored| + 1 ensures r'.data[k % size] == (stored + [ch])[k] {
      if k < |stored| {
        ModInjective(size, k, |stored|);
      }
    }
  }

  /** What comes out is the next byte of what went in. */
  lemma GetTakesNext(r: Ring, stored: seq<int>, removed: seq<int>)
    requires RingInv(r, stored, removed) && !IsEmpty(r)
    ensures |removed| < |stored| && Get(r).1 == stored[|removed|]
    ensures RingInv(Get(r).0, stored, removed + [Get(r).1])
  {
    TestsMean(r, stored, removed);
    WrapIndex(WRAP, |r.data|, |removed|);
    WrapAdd(WRAP, |removed|, 1);
  }
}
