/** Arithmetic and sequence facts the solver needs spelled out. */
module Arith {
  lemma MulLe(a: nat, b: nat, n: nat)
    requires a <= b
    ensures a * n <= b * n
  {
  }

  lemma Assoc<T>(a: seq<T>, b: seq<T>, c: seq<T>)
    ensures a + b + c == a + (b + c)
  {
  }

  lemma MulAssoc(a: nat, b: nat, c: nat)
    ensures a * (b * c) == a * b * c
  {
  }

  lemma DistributeLeft(a: nat, b: nat, n: nat)
    ensures (a + b) * n == a * n + b * n
  {
  }

  lemma Distribute(a: nat, n: nat)
    ensures (a + 1) * n == a * n + n
  {
  }

  /** The quotient is the q with q * n <= x < (q + 1) * n. */
  lemma DivIs(x: nat, n: nat, q: nat)
    requires n > 0 && q * n <= x < q * n + n
    ensures x / n == q
  {
    var r := x / n;
    assert r * n <= x < r * n + n;
    if r < q {
      MulLe(r + 1, q, n);
    } else if q < r {
      MulLe(q + 1, r, n);
    }
  }

  lemma DivBounds(x: nat, n: nat)
    requires n > 0
    ensures x / n * n <= x < x / n * n + n
  {
  }

  lemma DivMonotone(x: nat, y: nat, n: nat)
    requires n > 0 && x <= y
    ensures x / n <= y / n
  {
    DivBounds(x, n);
    DivBounds(y, n);
    if y / n < x / n { MulLe(y / n + 1, x / n, n); }
  }

  lemma DivPlus(x: nat, n: nat)
    requires n > 0
    ensures (x + n) / n == x / n + 1
  {
    DivBounds(x, n);
    DivIs(x + n, n, x / n + 1);
  }
}
