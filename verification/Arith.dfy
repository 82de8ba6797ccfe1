/** Facts about `/` and `%` with a variable divisor, stated once so that every other proof stays linear. */
module Arith {

  /** The two places a sum can land when it is at most one lap further on. */
  lemma ModStep(s: nat, d: nat, m: nat)
    requires 0 < m && d < m
    ensures (s + d) % m == if s % m + d < m then s % m + d else s % m + d - m
  {
    var q, r := s / m, s % m;
    if r + d < m {
      DivModUnique(s + d, m, q, r + d);
    } else {
      assert s + d == (q + 1) * m + (r + d - m);
      DivModUnique(s + d, m, q + 1, r + d - m);
    }
  }

  /** Quotient and remainder are determined by the division equation. */
  lemma DivModUnique(x: nat, m: nat, q: nat, r: nat)
    requires 0 < m && r < m && x == q * m + r
    ensures x / m == q && x % m == r
  {
    MulLess(x / m, q, m);
    MulLess(q, x / m, m);
  }

  lemma MulLess(a: nat, b: nat, m: nat)
    ensures a < b ==> a * m + m <= b * m
  {
    if a < b {
      var d: nat := b - a - 1;
      assert 0 <= d * m;
      assert (a + 1 + d) * m == a * m + m + d * m;
    }
  }

  /** Less than one period further on, the remainder is a different one; one period further on it is the same. */
  lemma ModPeriod(x: nat, k: nat, m: nat)
    requires 0 < m && 0 < k <= m
    ensures (x + k) % m == x % m <==> k == m
  {
    if k < m {
      ModStep(x, k, m);
    } else {
      assert x + m == (x / m + 1) * m + x % m;
      DivModUnique(x + m, m, x / m + 1, x % m);
    }
  }

  /** The largest multiple of `m` up to `x`. */
  function Base(x: nat, m: nat): (b: nat)
    requires m > 0
    ensures b <= x < b + m
  {
    x / m * m
  }

  /** Within `m` of a multiple `b` of `m`, division by `m` gives the same result. */
  lemma SameBase(b: nat, x: nat, m: nat)
    requires m > 0 && Base(b, m) == b && b <= x < b + m
    ensures x / m == b / m && Base(x, m) == b
  {
    DivModUnique(x, m, b / m, x - b);
  }

  lemma NextBase(b: nat, m: nat)
    requires m > 0 && Base(b, m) == b
    ensures Base(b + m, m) == b + m
  {
    assert b + m == (b / m + 1) * m + 0;
    DivModUnique(b + m, m, b / m + 1, 0);
  }

  lemma BaseOfBase(x: nat, m: nat)
    requires m > 0
    ensures Base(Base(x, m), m) == Base(x, m)
  {
    DivModUnique(Base(x, m), m, x / m, 0);
  }

  /** Two different multiples of `m` are at least `m` apart. */
  lemma BasesApart(a: nat, b: nat, m: nat)
    requires m > 0 && Base(a, m) == a && Base(b, m) == b && a < b
    ensures a + m <= b
  {
    MulLess(b / m, a / m, m);
    MulLess(a / m, b / m, m);
  }

  /** `k * m`, by repeated addition. */
  function Times(k: nat, m: nat): nat {
    if k == 0 then 0 else Times(k - 1, m) + m
  }

  lemma {:induction false} TimesIsProduct(k: nat, m: nat)
    ensures Times(k, m) == k * m
  {
    if k > 0 {
      TimesIsProduct(k - 1, m);
      assert k * m == (k - 1) * m + m;
    }
  }

  lemma Distribute(q: nat, a: nat, r: nat, b: nat)
    ensures (q * a + r) * b == q * (a * b) + r * b
  {
    var x := q * a;
    assert (x + r) * b == x * b + r * b;
    assert (q * a) * b == q * (a * b);
  }

  /** A multiple of four is a multiple of four past a multiple of four. */
  lemma {:induction false} WordInLap(sq: nat, rg: nat)
    requires 0 < rg && rg % 4 == 0 && sq % 4 == 0
    ensures sq % rg % 4 == 0
    decreases sq
  {
    if sq < rg {
      DivModUnique(sq, rg, 0, sq);
    } else {
      ModPeriod(sq - rg, rg, rg);
      WordInLap(sq - rg, rg);
    }
  }
}
