/** The circular list of buffers that `bio.c` threads through `prev` and `next`.

    Buffers are numbered from 0; the node after the last buffer is the list head. */
module BufRing {
  datatype Links = Links(next: seq<int>, prev: seq<int>)

  /** The node at position `i` of the walk that starts and ends at `head`. */
  function Node(order: seq<int>, head: int, i: int): int
    requires 0 <= i <= |order| + 1
  {
    if i == 0 || i == |order| + 1 then head else order[i - 1]
  }

  predicate Sized(l: Links, head: int) {
    0 <= head && |l.next| == head + 1 && |l.prev| == head + 1
  }

  ghost predicate Members(order: seq<int>, head: int) {
    && (forall i :: 0 <= i < |order| ==> 0 <= order[i] < head)
    && (forall i, j :: 0 <= i < j < |order| ==> order[i] != order[j])
  }

  ghost predicate Linked(l: Links, order: seq<int>, head: int, i: int)
    requires Sized(l, head) && Members(order, head) && 0 <= i <= |order|
  {
    l.next[Node(order, head, i)] == Node(order, head, i + 1) && l.prev[Node(order, head, i + 1)] == Node(order, head, i)
  }

  /** Following `next` from the head visits exactly the buffers of `order`, in that order, and
      following `prev` visits them backwards. */
  ghost predicate Ring(l: Links, order: seq<int>, head: int) {
    && Sized(l, head) && Members(order, head)
    && forall i :: 0 <= i <= |order| ==> Linked(l, order, head, i)
  }

  /** The head's links of an empty list. */
  function Alone(l: Links, head: int): Links
    requires Sized(l, head)
  {
    Links(l.next[head := head], l.prev[head := head])
  }

  /** Insert `b` just after the head. */
  function PushFront(l: Links, b: int, head: int): Links
    requires Sized(l, head) && 0 <= b < head && 0 <= l.next[head] <= head
  {
    var next, prev := l.next[b := l.next[head]], l.prev[b := head];
    Links(next[head := b], prev[next[head] := b])
  }

  /** Take `b` out. */
  function Unlink(l: Links, b: int, head: int): Links
    requires Sized(l, head) && 0 <= b < head && 0 <= l.next[b] <= head && 0 <= l.prev[b] <= head
  {
    var prev := l.prev[l.next[b] := l.prev[b]];
    var next := l.next[prev[b] := l.next[b]];
    Links(next, prev)
  }

  lemma AloneRing(l: Links, head: int)
    requires Sized(l, head)
    ensures Ring(Alone(l, head), [], head)
  {
  }

  lemma PushRing(l: Links, order: seq<int>, b: int, head: int)
    requires Ring(l, order, head) && 0 <= b < head && b !in order
    ensures 0 <= l.next[head] <= head && Ring(PushFront(l, b, head), [b] + order, head)
  {
    assert Linked(l, order, head, 0);
    var l', order' := PushFront(l, b, head), [b] + order;
    forall i | 0 <= i <= |order'| ensures Linked(l', order', head, i) {
      if i > 0 {
        assert Linked(l, order, head, i - 1);
      }
    }
  }

  lemma UnlinkRing(l: Links, order: seq<int>, k: int, head: int)
    requires Ring(l, order, head) && 0 <= k < |order|
    ensures var b := order[k];
            && 0 <= l.next[b] <= head && 0 <= l.prev[b] <= head
            && Ring(Unlink(l, b, head), order[..k] + order[k + 1..], head)
  {
    assert Linked(l, order, head, k) && Linked(l, order, head, k + 1);
    var l', order' := Unlink(l, order[k], head), order[..k] + order[k + 1..];
    forall i | 0 <= i <= |order'| ensures Linked(l', order', head, i) {
      assert Linked(l, order, head, i) && Linked(l, order, head, i + 1);
    }
  }
}
