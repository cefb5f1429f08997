/** Facts about products and quotients of natural numbers that the solver is better given than left to find. */
module Arith {

  type U32 = n: nat | n < 0x1_0000_0000

  function Min(a: nat, b: nat): nat {
    if a < b then a else b
  }

  function Pow2(k: nat): (p: nat)
    ensures p >= 1
  {
    if k == 0 then 1 else 2 * Pow2(k - 1)
  }

  function Pow256(k: nat): (p: nat)
    ensures p >= 1
  {
    if k == 0 then 1 else 256 * Pow256(k - 1)
  }

  lemma {:induction false} Pow2Order(a: nat, b: nat)
    requires a < b
    ensures 2 * Pow2(a) <= Pow2(b)
  {
    if a + 1 < b {
      Pow2Order(a, b - 1);
    }
  }

  lemma MulLe(a: nat, b: nat, q: nat)
    requires a <= b
    ensures a * q <= b * q
  {
    assert b * q == a * q + (b - a) * q;
  }

  lemma MulOrder(a: int, b: int, q: nat)
    requires a <= b
    ensures a * q <= b * q
  {
    MulLe(0, b - a, q);
    assert b * q == a * q + (b - a) * q;
  }

  lemma MulLess(a: nat, b: nat, q: nat)
    requires a * q < b * q
    ensures a < b
  {
    if b <= a {
      MulLe(b, a, q);
    }
  }

  lemma DivFacts(n: nat, q: nat)
    requires q > 0
    ensures 0 <= n / q && n / q * q <= n < (n / q + 1) * q
  {
    var k := n / q;
    var r := n % q;
    assert n == k * q + r && 0 <= r < q;
    assert (k + 1) * q == k * q + q;
  }

  function Quotient(n: nat, q: nat): nat
    requires q > 0
  {
    DivFacts(n, q);
    n / q
  }

  // A larger divisor gives no larger quotient.
  lemma QuotientFalls(n: nat, p: nat, q: nat)
    requires 0 < p <= q
    ensures Quotient(n, q) <= Quotient(n, p)
  {
    DivFacts(n, p);
    DivFacts(n, q);
    MulLe(p, q, n / q);
    LessByProduct(n / q, n / p, n, p);
  }

  lemma QuotientBounds(n: nat, q: nat, lo: nat, hi: nat)
    requires q > 0 && lo * q <= n < hi * q
    ensures lo <= n / q < hi
  {
    DivFacts(n, q);
    LessByProduct(lo, n / q, n, q);
    MulLess(n / q, hi, q);
  }

  // Two multiples of `q` around `n` are ordered.
  lemma LessByProduct(lo: nat, k: nat, n: nat, q: nat)
    requires lo * q <= n < (k + 1) * q
    ensures lo <= k
  {
    MulLess(lo, k + 1, q);
  }

  lemma QuotientIs(n: nat, q: nat, k: nat)
    requires q > 0 && k * q <= n < (k + 1) * q
    ensures n / q == k
  {
    QuotientBounds(n, q, k, k + 1);
  }

  lemma QuotientOfProduct(k: nat, q: nat)
    requires q > 0
    ensures k * q >= 0 && k * q / q == k
  {
    MulLe(0, k, q);
    assert (k + 1) * q == k * q + q;
    QuotientIs(k * q, q, k);
  }

  lemma QuotientOrder(a: nat, b: nat, q: nat)
    requires q > 0 && a <= b
    ensures 0 <= a / q <= b / q
  {
    var i := QuotientCover(a, q);
    var j := QuotientCover(b, q);
    LessByProduct(i, j, b, q);
  }

  lemma QuotientCover(n: nat, q: nat) returns (k: nat)
    requires q > 0
    ensures k == n / q && k * q <= n < (k + 1) * q
  {
    k := n / q;
    DivFacts(n, q);
  }

  // Dividing twice is dividing by the product.
  lemma NestedQuotient(n: nat, q: nat, p: nat)
    requires q > 0 && p > 0
    ensures p * q > 0 && n / q / p == n / (p * q)
  {
    MulPos(p, q);
    var a := QuotientCover(n, q);
    var b := QuotientCover(a, p);
    NestedCover(n, q, p, a, b);
    QuotientIs(n, p * q, b);
  }

  lemma NestedCover(n: nat, q: nat, p: nat, a: nat, b: nat)
    requires a * q <= n < (a + 1) * q && b * p <= a < (b + 1) * p
    ensures b * (p * q) <= n < (b + 1) * (p * q)
  {
    MulLe(b * p, a, q);
    MulLe(a + 1, (b + 1) * p, q);
    MulAssoc(b, p, q);
    MulAssoc(b + 1, p, q);
  }

  lemma MulAssoc(a: int, b: int, c: int)
    ensures a * (b * c) == (a * b) * c
  {
  }

  lemma MulPos(a: nat, b: nat)
    requires a > 0 && b > 0
    ensures a * b > 0
  {
    MulLe(1, a, b);
  }
}
