/** Division by a variable, kept away from everything else. */
module Arith {

  lemma Distribute(a: int, b: int, n: int)
    ensures (a - b) * n == a * n - b * n
  {
  }

  lemma AtLeastOnce(a: int, n: nat)
    requires a >= 1
    ensures a * n >= n
  {
    Distribute(a, 1, n);
    NonNegative(a - 1, n);
  }

  lemma NonNegative(a: nat, n: nat)
    ensures a * n >= 0
  {
  }

  lemma QuotientUnique(n: nat, q: int, r: int, p: int, s: int)
    requires 0 <= r < n && 0 <= s < n && q * n + r == p * n + s
    ensures q == p && r == s
  {
    Distribute(q, p, n);
    Distribute(p, q, n);
    if q > p {
      AtLeastOnce(q - p, n);
    } else if p > q {
      AtLeastOnce(p - q, n);
    }
  }

  lemma DivModUnique(x: nat, n: nat, q: nat, r: nat)
    requires r < n && x == q * n + r
    ensures x / n == q && x % n == r
  {
    QuotientUnique(n, q, r, x / n, x % n);
  }

  lemma DivModOf(x: nat, n: nat)
    requires n > 0
    ensures x == (x / n) * n + x % n && 0 <= x % n < n && x / n >= 0
  {
  }

  lemma OneMore(q: int, n: int)
    ensures (q + 1) * n == q * n + n
  {
  }

  /** One step forward: the remainder goes up by one, or wraps and the quotient goes up. */
  lemma StepDivMod(x: nat, n: nat)
    requires n > 0
    ensures if x % n + 1 < n then (x + 1) / n == x / n && (x + 1) % n == x % n + 1
            else (x + 1) / n == x / n + 1 && (x + 1) % n == 0
  {
    DivModOf(x, n);
    if x % n + 1 < n {
      DivModUnique(x + 1, n, x / n, x % n + 1);
    } else {
      OneMore(x / n, n);
      DivModUnique(x + 1, n, x / n + 1, 0);
    }
  }

  lemma NextIndex(x: nat, n: nat)
    requires n > 0
    ensures (x % n + 1) % n == (x + 1) % n
  {
    StepDivMod(x, n);
    DivModOf(x, n);
    if x % n + 1 < n {
      SmallMod(x % n + 1, n);
    } else {
      DivModUnique(n, n, 1, 0);
    }
  }

  lemma SmallMod(x: nat, n: nat)
    requires x < n
    ensures x / n == 0 && x % n == x
  {
    DivModUnique(x, n, 0, x);
  }

  lemma WrapMod(x: nat, n: nat)
    requires x < n
    ensures (x + n) % n == x
  {
    DivModUnique(x + n, n, 1, x);
  }

  /** Step `i` round a ring of `n` from `start` is at `j` exactly when `i` is at the offset of `j`. */
  lemma TurnIs(n: nat, start: nat, j: nat, i: nat)
    requires start < n && j < n
    ensures (start + i) % n == j <==> i % n == (j + n - start) % n
  {
    DivModOf(i, n);
    if j >= start {
      WrapMod(j - start, n);
    } else {
      SmallMod(j + n - start, n);
    }
    if start + i % n < n {
      DivModUnique(start + i, n, i / n, start + i % n);
    } else {
      OneMore(i / n, n);
      DivModUnique(start + i, n, i / n + 1, start + i % n - n);
    }
  }
}
