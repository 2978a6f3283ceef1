/**
 Powers, and division with remainder.
 */
module Arithmetic {

  function Power(b: nat, k: nat): nat {
    if k == 0 then 1 else b * Power(b, k - 1)
  }

  lemma Scaled(x: int, y: int, n: nat)
    requires x <= y
    ensures x * n <= y * n && (x + 1) * n == x * n + n
  {
  }

  lemma Parts(x: nat, n: nat)
    requires n > 0
    ensures x == x / n * n + x % n && x % n < n
  {
  }

  /** Quotient and remainder are determined by their bounds. */
  lemma Quotient(x: nat, q: nat, n: nat)
    requires n > 0 && q * n <= x < q * n + n
    ensures x / n == q && x % n == x - q * n
  {
    var d := x / n;
    Parts(x, n);
    Scaled(d, d, n);
    Scaled(q, q, n);
    if d < q { Scaled(d + 1, q, n); }
    if q < d { Scaled(q + 1, d, n); }
  }

  /** Whole turns do not change a remainder. */
  lemma Turns(x: nat, q: nat, n: nat)
    requires n > 0
    ensures (x + q * n) % n == x % n
  {
    Parts(x, n);
    assert x + q * n == (x / n + q) * n + x % n;
    Quotient(x + q * n, x / n + q, n);
  }

  lemma RemainderAdds(x: nat, k: nat, n: nat)
    requires n > 0
    ensures (x % n + k) % n == (x + k) % n
  {
    Parts(x, n);
    Turns(x % n + k, x / n, n);
  }

  lemma RemaindersAdd(x: nat, y: nat, n: nat)
    requires n > 0
    ensures (x % n + y % n) % n == (x + y) % n
  {
    RemainderAdds(x, y % n, n);
    RemainderAdds(y, x, n);
  }
}
