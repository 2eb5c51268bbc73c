/**
 Digits of numbers: division by a product is division in two steps.
 */
module Numbers {

  function Power(base: nat, k: nat): (p: nat)
    requires base > 0
    ensures p > 0
  {
    if k == 0 then 1
    else
      var p := Power(base, k - 1);
      Positive(base, p);
      base * p
  }

  lemma Positive(a: nat, b: nat)
    requires a > 0 && b > 0
    ensures a * b > 0
  {}

  lemma Times(m: nat, q: nat, d: nat)
    ensures m > q ==> m * d >= q * d + d
  {
    if m > q {
      assert m * d == q * d + (m - q) * d;
      AtLeast(m - q, d);
    }
  }

  lemma AtLeast(k: nat, d: nat)
    requires k > 0
    ensures k * d >= d
  {}

  /** There is one way to divide with a rest. */
  lemma SameQuotient(d: nat, q: nat, r: nat, m: nat, s: nat)
    requires q * d + r == m * d + s && r < d && s < d
    ensures m == q
  {
    Times(m, q, d);
    Times(q, m, d);
  }

  lemma Quotient(n: nat, d: nat, q: nat, r: nat)
    requires r < d && n == q * d + r
    ensures n / d == q
  {
    var m, s := n / d, n % d;
    assert n == m * d + s;
    SameQuotient(d, q, r, m, s);
  }

  lemma Spread(base: nat, p: nat, q: nat, r: nat, low: nat)
    ensures (q * p + r) * base + low == q * (base * p) + (r * base + low)
  {}

  lemma Below(base: nat, p: nat, r: nat, low: nat)
    requires r < p && low < base
    ensures r * base + low < base * p
  {
    assert (r + 1) * base <= p * base;
  }

  lemma Parts(n: nat, base: nat, p: nat, q: nat, r: nat, low: nat)
    requires base > 0 && p > 0 && base * p > 0 && r < p && low < base && n == (q * p + r) * base + low
    ensures n / (base * p) == q
  {
    Spread(base, p, q, r, low);
    Below(base, p, r, low);
    Quotient(n, base * p, q, r * base + low);
  }

  lemma Divide(n: nat, d: nat) returns (q: nat, r: nat)
    requires d > 0
    ensures n == q * d + r && r < d && q == n / d
  {
    q, r := n / d, n % d;
  }

  lemma DivTwice(n: nat, base: nat, p: nat)
    requires base > 0 && p > 0
    ensures base * p > 0 && n / (base * p) == n / base / p
  {
    var m, low := Divide(n, base);
    var q, r := Divide(m, p);
    Positive(base, p);
    Parts(n, base, p, q, r, low);
  }
}
