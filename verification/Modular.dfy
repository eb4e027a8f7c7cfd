/** Counters that wrap around, and rings that they index. */
module Modular {

  lemma {:induction false} ModMultiple(n: int, a: nat, r: int)
    requires 0 < n
    ensures (n * a + r) % n == r % n
  {
    if a > 0 {
      ModMultiple(n, a - 1, r);
      ModShift(n, n * (a - 1) + r);
      assert n * a + r == (n * (a - 1) + r) + n;
    }
  }

  lemma ModShift(n: int, x: int)
    requires 0 < n
    ensures (x + n) % n == x % n
  {
    var q, r := x / n, x % n;
    assert x + n == n * (q + 1) + r;
    DivModUnique(n, x + n, q + 1, r);
  }

  lemma DivModUnique(n: int, x: int, q: int, r: int)
    requires 0 <= r < n && x == n * q + r
    ensures x % n == r
  {
    var d := q - x / n;
    assert n * d == x % n - r;
    SmallMultiple(n, d);
  }

  lemma SmallMultiple(n: int, d: int)
    requires 0 < n && -n < n * d < n
    ensures d == 0
  {
    assert d >= 1 ==> n <= n * d;
    assert d <= -1 ==> n * d <= -n;
  }

  /** Wrapping a count does not disturb an index into a ring whose size divides the wrap. */
  lemma WrapIndex(wrap: int, size: int, x: nat)
    requires 0 < size && 0 < wrap && wrap % size == 0
    ensures (x % wrap) % size == x % size
  {
    var m := wrap / size;
    var q, r := x / wrap, x % wrap;
    assert wrap == size * m;
    assert x == size * (m * q) + r;
    ModMultiple(size, m * q, r);
  }

  lemma WrapAdd(wrap: int, x: nat, y: nat)
    requires 0 < wrap
    ensures (x % wrap + y) % wrap == (x + y) % wrap
  {
    var q := x / wrap;
    assert x + y == wrap * q + (x % wrap + y);
    ModMultiple(wrap, q, x % wrap + y);
  }

  /** Two counts that are less than `n` apart agree modulo `n` only if they are equal. */
  lemma ModInjective(n: int, x: nat, y: nat)
    requires 0 < n && x <= y < x + n
    ensures x % n == y % n <==> x == y
  {
    if x % n == y % n {
      var d := y / n - x / n;
      assert y - x == n * d;
      SmallMultiple(n, d);
    }
  }
}
