/** The buffer cache of `bio.c`: the critical sections under `bcache.lock`. */
module BufCache {
  import opened BufRing
  import LogDisk

  type Block = LogDisk.Block

  datatype Buf = Buf(dev: int, blockno: int, valid: bool, refcnt: int, data: Block)

  datatype Got = Hit(b: int) | Recycled(b: int) | NoBuffers

  predicate HasKey(b: Buf, dev: int, blockno: int) {
    b.dev == dev && b.blockno == blockno
  }

  ghost predicate Cached(bufs: seq<Buf>, dev: int, blockno: int) {
    exists b :: 0 <= b < |bufs| && HasKey(bufs[b], dev, blockno)
  }

  /** When buffer `b` was last put at the front of the list, or -1. */
  function LastUse(hist: seq<int>, b: int): int {
    if hist == [] then -1
    else if hist[|hist| - 1] == b then |hist| - 1
    else LastUse(hist[..|hist| - 1], b)
  }

  /** Buffer `b` is unreferenced, and no other unreferenced buffer was used longer ago. */
  ghost predicate Oldest(bufs: seq<Buf>, hist: seq<int>, b: int) {
    && 0 <= b < |bufs| && bufs[b].refcnt == 0
    && forall c :: 0 <= c < |bufs| && bufs[c].refcnt == 0 ==> LastUse(hist, b) <= LastUse(hist, c)
  }

  /** The list is in order of last use, most recent first. */
  ghost predicate ByRecency(order: seq<int>, hist: seq<int>) {
    forall i, j :: 0 <= i < j < |order| ==> LastUse(hist, order[i]) > LastUse(hist, order[j])
  }

  lemma {:induction false} LastUseBound(hist: seq<int>, b: int)
    ensures -1 <= LastUse(hist, b) < |hist|
  {
    if hist != [] {
      LastUseBound(hist[..|hist| - 1], b);
    }
  }

  lemma LastUseAppend(hist: seq<int>, x: int, b: int)
    ensures LastUse(hist + [x], b) == if b == x then |hist| else LastUse(hist, b)
  {
    assert (hist + [x])[..|hist|] == hist;
  }

  function Without(order: seq<int>, k: int): seq<int>
    requires 0 <= k < |order|
  {
    order[..k] + order[k + 1..]
  }

  /** Putting a new buffer at the front keeps the order by recency. */
  lemma FrontIsRecent(order: seq<int>, hist: seq<int>, b: int)
    requires ByRecency(order, hist) && b !in order
    ensures ByRecency([b] + order, hist + [b])
  {
    var order' := [b] + order;
    forall i, j | 0 <= i < j < |order'| ensures LastUse(hist + [b], order'[i]) > LastUse(hist + [b], order'[j]) {
      LastUseAppend(hist, b, order'[i]);
      LastUseAppend(hist, b, order'[j]);
      LastUseBound(hist, order'[j]);
    }
  }

  class Cache {
    var links: Links
    var bufs: seq<Buf>
    var owner: seq<int>          // the holder of each buffer's sleep lock, or -1
    ghost var order: seq<int>    // the buffers in list order
    ghost var hist: seq<int>     // the buffers put at the front, ever

    ghost predicate Valid()
      reads this
    {
      && |owner| == |bufs|
      && Ring(links, order, |bufs|) && ByRecency(order, hist)
      && (forall b :: 0 <= b < |bufs| ==> b in order)
    }

    constructor (n: nat)
      ensures Valid() && |bufs| == n
      ensures forall b :: 0 <= b < n ==> bufs[b] == Buf(0, 0, false, 0, []) && owner[b] == -1
    {
      var zeros := seq(n + 1, i => 0);
      bufs := seq(n, i => Buf(0, 0, false, 0, []));
      owner := seq(n, i => -1);
      links := Alone(Links(zeros, zeros), n);
      order := [];
      hist := [];
      new;
      AloneRing(Links(zeros, zeros), n);
      var b := 0;
      while b < n
        invariant 0 <= b <= n && |bufs| == n && |owner| == n
        invariant forall i :: 0 <= i < n ==> bufs[i] == Buf(0, 0, false, 0, []) && owner[i] == -1
        invariant Ring(links, order, n) && ByRecency(order, hist)
        invariant forall i :: i in order <==> 0 <= i < b
      {
        PushRing(links, order, b, n);
        FrontIsRecent(order, hist, b);
        links := PushFront(links, b, n);
        order := [b] + order;
        hist := hist + [b];
        b := b + 1;
      }
    }

    /** Find the block's buffer, or recycle the least recently used buffer that nobody refers to. */
    method BGet(dev: int, blockno: int) returns (r: Got)
      requires Valid()
      modifies this`bufs
      ensures Valid()
      ensures match r
              case Hit(b) =>
                && 0 <= b < |old(bufs)| && HasKey(old(bufs)[b], dev, blockno)
                && bufs == old(bufs)[b := old(bufs)[b].(refcnt := old(bufs)[b].refcnt + 1)]
              case Recycled(b) =>
                && !Cached(old(bufs), dev, blockno) && Oldest(old(bufs), hist, b)
                && bufs == old(bufs)[b := Buf(dev, blockno, false, 1, old(bufs)[b].data)]
              case NoBuffers =>
                && !Cached(old(bufs), dev, blockno) && (forall b :: 0 <= b < |old(bufs)| ==> old(bufs)[b].refcnt != 0)
                && bufs == old(bufs)
    {
      var head := |bufs|;
      var b := Lookup(dev, blockno);
      if b != head {
        bufs := bufs[b := bufs[b].(refcnt := bufs[b].refcnt + 1)];
        return Hit(b);
      }
      b := Victim();
      if b != head {
        bufs := bufs[b := Buf(dev, blockno, false, 1, bufs[b].data)];
        return Recycled(b);
      }
      return NoBuffers;
    }

    /** The first loop, forward from the head. */
    method Lookup(dev: int, blockno: int) returns (b: int)
      requires Valid()
      ensures if b == |bufs| then !Cached(bufs, dev, blockno) else 0 <= b < |bufs| && HasKey(bufs[b], dev, blockno)
    {
      var head := |bufs|;
      assert Linked(links, order, head, 0);
      b := links.next[head];
      ghost var i := 0;
      while b != head && !(bufs[b].dev == dev && bufs[b].blockno == blockno)
        invariant 0 <= i <= |order| && b == Node(order, head, i + 1)
        invariant forall k :: 0 <= k < i ==> !HasKey(bufs[order[k]], dev, blockno)
        decreases |order| - i
      {
        i := i + 1;
        assert Linked(links, order, head, i);
        b := links.next[b];
      }
      if b == head {
        forall c | 0 <= c < |bufs| ensures !HasKey(bufs[c], dev, blockno) {
          assert c in order;
        }
      }
    }

    /** The second loop, backward from the head. */
    method Victim() returns (b: int)
      requires Valid()
      ensures if b == |bufs| then forall c :: 0 <= c < |bufs| ==> bufs[c].refcnt != 0 else Oldest(bufs, hist, b)
    {
      var head := |bufs|;
      ghost var i := |order|;
      assert Linked(links, order, head, i);
      b := links.prev[head];
      while b != head && bufs[b].refcnt != 0
        invariant 0 <= i <= |order| && b == Node(order, head, i)
        invariant forall k :: i <= k < |order| ==> bufs[order[k]].refcnt != 0
        decreases i
      {
        i := i - 1;
        assert Linked(links, order, head, i);
        b := links.prev[b];
      }
      if b != head {
        OldestAt(bufs, order, hist, i - 1);
      } else {
        forall c | 0 <= c < |bufs| ensures bufs[c].refcnt != 0 {
          assert c in order;
        }
      }
    }

    /** The second half of `bread`: the caller holds the buffer's lock. */
    method Fill(b: int, content: Block)
      requires Valid() && 0 <= b < |bufs|
      modifies this`bufs
      ensures Valid()
      ensures bufs == old(bufs)[b := if old(bufs)[b].valid then old(bufs)[b]
              else old(bufs)[b].(valid := true, data := content)]
    {
      if !bufs[b].valid {
        bufs := bufs[b := bufs[b].(data := content)];
        bufs := bufs[b := bufs[b].(valid := true)];
      }
    }

    /** Give the lock back.  Returns false where the code panics. */
    method Unlock(b: int, p: int) returns (ok: bool)
      requires Valid() && 0 <= b < |bufs|
      modifies this`owner
      ensures Valid() && ok == (old(owner)[b] == p)
      ensures owner == if ok then old(owner)[b := -1] else old(owner)
    {
      if owner[b] != p {
        return false;
      }
      owner := owner[b := -1];
      return true;
    }

    /** The second half of `brelse`: drop the reference; the last one makes the buffer the most
        recently used. */
    method Drop(b: int)
      requires Valid() && 0 <= b < |bufs|
      modifies this`bufs, this`links, this`order, this`hist
      ensures Valid()
      ensures bufs == old(bufs)[b := old(bufs)[b].(refcnt := old(bufs)[b].refcnt - 1)]
      ensures hist == if bufs[b].refcnt == 0 then old(hist) + [b] else old(hist)
    {
      bufs := bufs[b := bufs[b].(refcnt := bufs[b].refcnt - 1)];
      if bufs[b].refcnt == 0 {
        assert b in order;
        ghost var k :| 0 <= k < |order| && order[k] == b;
        ghost var rest := Without(order, k);
        MovedToFront(links, order, hist, k, |bufs|);
        links := Unlink(links, b, |bufs|);
        links := PushFront(links, b, |bufs|);
        order := [b] + rest;
        hist := hist + [b];
      }
    }

    method BPin(b: int)
      requires Valid() && 0 <= b < |bufs|
      modifies this`bufs
      ensures Valid() && bufs == old(bufs)[b := old(bufs)[b].(refcnt := old(bufs)[b].refcnt + 1)]
    {
      bufs := bufs[b := bufs[b].(refcnt := bufs[b].refcnt + 1)];
    }

    method BUnpin(b: int)
      requires Valid() && 0 <= b < |bufs|
      modifies this`bufs
      ensures Valid() && bufs == old(bufs)[b := old(bufs)[b].(refcnt := old(bufs)[b].refcnt - 1)]
    {
      bufs := bufs[b := bufs[b].(refcnt := bufs[b].refcnt - 1)];
    }
  }

  /** The last unreferenced buffer of the list is the oldest one. */
  lemma OldestAt(bufs: seq<Buf>, order: seq<int>, hist: seq<int>, k: int)
    requires Members(order, |bufs|) && ByRecency(order, hist) && 0 <= k < |order| && bufs[order[k]].refcnt == 0
    requires forall b :: 0 <= b < |bufs| ==> b in order
    requires forall i :: k < i < |order| ==> bufs[order[i]].refcnt != 0
    ensures Oldest(bufs, hist, order[k])
  {
    forall c | 0 <= c < |bufs| && bufs[c].refcnt == 0 ensures LastUse(hist, order[k]) <= LastUse(hist, c) {
      assert c in order;
      var i :| 0 <= i < |order| && order[i] == c;
      assert i <= k;
    }
  }

  /** Unlinking a buffer and pushing it to the front keeps the list whole and in order. */
  lemma MovedToFront(l: Links, order: seq<int>, hist: seq<int>, k: int, head: int)
    requires Ring(l, order, head) && ByRecency(order, hist) && 0 <= k < |order|
    requires forall b :: 0 <= b < head ==> b in order
    ensures var b, rest := order[k], Without(order, k);
            && 0 <= l.next[b] <= head && 0 <= l.prev[b] <= head
            && var l1 := Unlink(l, b, head);
            && Sized(l1, head) && 0 <= l1.next[head] <= head
            && Ring(PushFront(l1, b, head), [b] + rest, head) && ByRecency([b] + rest, hist + [b])
            && (forall c :: 0 <= c < head ==> c in [b] + rest)
  {
    var b, rest := order[k], Without(order, k);
    UnlinkRing(l, order, k, head);
    assert b !in rest;
    PushRing(Unlink(l, b, head), rest, b, head);
    assert ByRecency(rest, hist) by {
      forall i, j | 0 <= i < j < |rest| ensures LastUse(hist, rest[i]) > LastUse(hist, rest[j]) {
        var i', j' := if i < k then i else i + 1, if j < k then j else j + 1;
        assert rest[i] == order[i'] && rest[j] == order[j'];
      }
    }
    FrontIsRecent(rest, hist, b);
    forall c | 0 <= c < head ensures c in [b] + rest {
      assert c in order;
      var i :| 0 <= i < |order| && order[i] == c;
      if i < k {
        assert rest[i] == c;
      } else if i > k {
        assert rest[i - 1] == c;
      }
    }
  }
}
