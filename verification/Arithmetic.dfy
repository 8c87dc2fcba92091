/** Division facts the solver does not find by itself. */
module Arithmetic {
  lemma DivMod(n: nat, d: nat, q: nat, r: nat)
    requires d > 0 && r < d && n == q * d + r
    ensures n / d == q && n % d == r
  {
    var e := n / d - q;
    assert n == (n / d) * d + n % d;
    assert e * d == r - n % d;
    assert 0 - d < e * d < d;
    assert e == 0;
  }

  lemma Regroup(c: nat, q: nat, p: nat, r: nat)
    ensures c * (q * p + r) == q * (c * p) + c * r
  {
    assert c * (q * p) == q * (c * p);
  }

  lemma BelowProduct(c: nat, p: nat, r: nat, low: nat)
    requires r < p && low < c
    ensures c * r + low < c * p
  {
    Monotone(c, r + 1, p);
    OneMore(c, r);
  }

  lemma OneMore(c: nat, k: nat)
    ensures c * (k + 1) == c * k + c
  {
  }

  lemma {:induction false} Monotone(c: nat, a: nat, b: nat)
    requires a <= b
    ensures c * a <= c * b
    decreases b - a
  {
    if a < b {
      Monotone(c, a, b - 1);
      OneMore(c, b - 1);
    }
  }

  lemma Divided(n: nat, c: nat)
    requires c > 0
    ensures n == c * (n / c) + n % c && n % c < c
  {
  }

  lemma DivTwice(n: nat, c: nat, p: nat)
    requires c > 0 && p > 0 && c * p > 0
    ensures (n / c) / p == n / (c * p)
  {
    var m := n / c;
    Divided(n, c);
    Divided(m, p);
    FromParts(n, c, p, m / p, m % p, n % c);
  }

  lemma FromParts(n: nat, c: nat, p: nat, q: nat, r: nat, low: nat)
    requires n == c * (p * q + r) + low && r < p && low < c && c * p > 0
    ensures n / (c * p) == q
  {
    Regroup(c, q, p, r);
    BelowProduct(c, p, r, low);
    DivMod(n, c * p, q, c * r + low);
  }
}
