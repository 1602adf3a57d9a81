/** Quotients and remainders of natural numbers. */
module Division {
  lemma {:induction false} Divided(a: nat, d: nat, q: nat, r: nat)
    requires d > 0 && r < d && a == q * d + r
    ensures a / d == q && a % d == r
  {
    assert a == a / d * d + a % d && 0 <= a % d < d;
    Quotient(d, a / d, a % d, q, r);
  }

  lemma {:induction false} Quotient(d: nat, q1: int, r1: int, q: int, r: int)
    requires 0 <= r < d && 0 <= r1 < d && q1 * d + r1 == q * d + r
    ensures q1 == q && r1 == r
  {
    assert (q1 - q) * d == r - r1;
    NoMultiple(q1 - q, d);
    NoMultiple(q - q1, d);
    assert (q - q1) * d == r1 - r;
  }

  lemma {:induction false} NoMultiple(k: int, d: nat)
    ensures k >= 1 ==> k * d >= d
  {
    if k >= 1 {
      assert k * d == d + (k - 1) * d;
      assert (k - 1) * d >= 0;
    }
  }

  /** The place of cell i of row a in rows of n cells. */
  function Cell(n: nat, a: nat, i: nat): nat {
    a * n + i
  }

  lemma {:induction false} CellWithin(n: nat, a: nat, i: nat, rows: nat)
    requires i < n && a < rows
    ensures Cell(n, a, i) < Cell(n, rows, 0)
  {
    NoMultiple(rows - a, n);
    assert rows * n - a * n == (rows - a) * n;
  }
}
