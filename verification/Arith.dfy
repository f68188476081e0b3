/** A few facts about division, multiplication and powers of two. */
module Arith {

  function Min(a: int, b: int): int { if a < b then a else b }

  function Max(a: int, b: int): int { if a > b then a else b }

  /** The quotient, rounded up. */
  function CeilDiv(a: nat, b: nat): nat
    requires b > 0
  {
    (a + b - 1) / b
  }

  /** `q` pieces of size `size` are just enough for `n`. */
  predicate JustCovers(q: nat, size: nat, n: nat) {
    q * size >= n && (q > 0 ==> (q - 1) * size < n)
  }

  lemma CeilCovers(n: nat, size: nat)
    requires size > 0
    ensures JustCovers(CeilDiv(n, size), size, n)
  {
    var q := CeilDiv(n, size);
    DivMod(n + size - 1, size);
    assert q * size <= n + size - 1 < q * size + size;
    MulStep(q - 1, size);
  }

  /** Fewer pieces are not enough. */
  lemma JustCoversLeast(q: nat, r: nat, size: nat, n: nat)
    requires JustCovers(q, size, n) && r * size >= n
    ensures q <= r
  {
    if r < q {
      MulMonotone(r, q - 1, size);
      assert false;
    }
  }

  lemma MulMonotone(a: int, b: int, x: nat)
    requires a <= b
    ensures a * x <= b * x
  {
  }

  lemma DivUnique(a: int, n: int, q: int)
    requires n > 0 && q * n <= a < (q + 1) * n
    ensures a / n == q
  {
    var d := a / n;
    assert d * n <= a < (d + 1) * n;
    assert d < q ==> (d + 1) * n <= q * n;
    assert d > q ==> (q + 1) * n <= d * n;
  }

  lemma DivModUnique(a: int, n: int, q: int)
    requires 0 <= a < n
    ensures (a + n * q) / n == q && (a + n * q) % n == a
  {
    var x := a + n * q;
    assert n * q == q * n && (q + 1) * n == q * n + n;
    DivUnique(x, n, q);
    assert x == n * (x / n) + x % n;
  }

  lemma DivMod(a: int, p: int)
    requires p > 0
    ensures a % p + p * (a / p) == a && 0 <= a % p < p
  {
  }

  lemma DivLess(a: nat, p: nat, c: nat)
    requires p > 0 && a < p * c
    ensures 0 <= a / p < c
  {
    var q := a / p;
    assert p * q <= a;
    assert q >= c ==> p * q >= p * c;
  }

  lemma MulLess(a: nat, b: nat, p: nat, x: nat)
    requires a < p && x < b
    ensures a + p * x < p * b
  {
    assert p * (x + 1) <= p * b;
  }

  lemma MulStep(n: int, x: int)
    ensures (n + 1) * x == n * x + x
  {
  }

  lemma MulSum(a: int, b: int, c: int, x: int)
    ensures (a + b + c) * x == a * x + b * x + c * x
  {
  }

  lemma MulTwo(a: int, x: int)
    ensures (2 * a) * x == 2 * (a * x)
  {
  }

  function Pow2(n: nat): (p: nat)
    ensures p > 0
  {
    if n == 0 then 1 else 2 * Pow2(n - 1)
  }

  lemma MulAtLeast(v: nat, p: nat)
    requires v > 0
    ensures v * p >= p
  {
  }

  /** Halving the quotient doubles the divisor. */
  lemma HalfStep(v: nat, p: nat, val: nat)
    requires v * p <= val < (v + 1) * p
    ensures (v / 2) * (2 * p) <= val < (v / 2 + 1) * (2 * p)
  {
    var w := v / 2;
    assert w * (2 * p) == (2 * w) * p && (w + 1) * (2 * p) == (2 * w + 2) * p;
    assert (2 * w) * p <= v * p;
    assert (v + 1) * p <= (2 * w + 2) * p;
  }
}
