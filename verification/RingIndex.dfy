/** Rings that are indexed by a counter modulo their size, where the counter itself may wrap. */
module RingIndex {

  lemma ModApart(n: nat, a: nat, b: nat)
    requires n > 0 && a < b < a + n
    ensures a % n != b % n
  {
    if a % n == b % n {
      var k := b / n - a / n;
      assert b - a == n * k;
      if k >= 1 {
        MulGrows(n, k);
      } else {
        MulNegative(n, k);
      }
      assert false;
    }
  }

  lemma MulGrows(n: nat, k: int)
    requires k >= 1
    ensures n * k >= n
  {
  }

  lemma MulNegative(n: nat, k: int)
    requires k <= 0
    ensures n * k <= 0
  {
  }

  /** The ring slot can be computed from the 16-bit index. */
  lemma ModMod(x: nat, m: nat, n: nat)
    requires n > 0 && m > 0 && m % n == 0
    ensures x % m % n == x % n
  {
    var q, c := x / m, m / n;
    assert x == m * q + x % m;
    assert m == n * c;
    assert n * c * q == n * (c * q);
    ModShift(x % m, n, c * q);
  }

  lemma {:induction false} ModShift(a: nat, n: nat, k: nat)
    requires n > 0
    ensures (a + n * k) % n == a % n
  {
    if k > 0 {
      ModShift(a, n, k - 1);
      assert a + n * k == (a + n * (k - 1)) + n;
      ModOnce(a + n * (k - 1), n);
    }
  }

  lemma ModOnce(a: nat, n: nat)
    requires n > 0
    ensures (a + n) % n == a % n
  {
    var q, r := a / n, a % n;
    assert a + n == n * (q + 1) + r;
    DivUnique(a + n, n, q + 1, r);
  }

  lemma DivUnique(x: nat, n: nat, q: nat, r: nat)
    requires n > 0 && x == n * q + r && r < n
    ensures x % n == r
  {
    var q2, r2 := x / n, x % n;
    assert n * (q - q2) == r2 - r && n * (q2 - q) == r - r2;
    if q > q2 {
      MulGrows(n, q - q2);
    } else if q < q2 {
      MulGrows(n, q2 - q);
    }
  }

  function Slot(n: nat, k: nat): (i: nat)
    requires n > 0
    ensures i < n
  {
    k % n
  }

  /** The ring holds the entries q from count k on. */
  ghost predicate Holds<T>(n: nat, ring: seq<T>, k: nat, q: seq<T>)
    requires n > 0 && |ring| == n
  {
    forall i :: 0 <= i < |q| ==> ring[Slot(n, k + i)] == q[i]
  }

  /** An entry added behind the queue overwrites none of it. */
  lemma Append<T>(n: nat, ring: seq<T>, k: nat, q: seq<T>, x: T)
    requires n > 0 && |ring| == n && Holds(n, ring, k, q) && |q| < n
    ensures Holds(n, ring[Slot(n, k + |q|) := x], k, q + [x])
  {
    var ring' := ring[Slot(n, k + |q|) := x];
    forall i | 0 <= i < |q|
      ensures ring'[Slot(n, k + i)] == q[i]
    {
      ModApart(n, k + i, k + |q|);
    }
  }

  /** Taking the first entry leaves the rest of the queue. */
  lemma Consume<T>(n: nat, ring: seq<T>, k: nat, q: seq<T>)
    requires n > 0 && |ring| == n && Holds(n, ring, k, q) && q != []
    ensures ring[Slot(n, k)] == q[0] && Holds(n, ring, k + 1, q[1..])
  {
    assert ring[Slot(n, k + 0)] == q[0];
    forall i | 0 <= i < |q[1..]|
      ensures ring[Slot(n, k + 1 + i)] == q[1..][i]
    {
      assert ring[Slot(n, k + (i + 1))] == q[i + 1];
    }
  }
}
