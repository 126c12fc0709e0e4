/** Arithmetic on products and quotients that the byte-offset proofs rely on. */
module Arith {

  lemma MulMono(a: int, b: int, c: int)
    requires a <= b && 0 <= c
    ensures a * c <= b * c
  {
    assert (b - a) * c >= 0;
  }

  lemma MulCancel(x: int, y: int, c: int)
    requires 0 < c && x * c == y * c
    ensures x == y
  {
    if x < y { MulMono(x + 1, y, c); }
    if y < x { MulMono(y + 1, x, c); }
  }

  /** A quotient and remainder determine each other. */
  lemma DivUnique(q: int, r: int, d: int)
    requires 0 <= r < d
    ensures (q * d + r) / d == q
    ensures (q * d + r) % d == r
  {
    var x := q * d + r;
    var q' := x / d;
    assert x == q' * d + x % d;
    if q' < q {
      MulMono(q' + 1, q, d);
      assert false;
    }
    if q < q' {
      MulMono(q + 1, q', d);
      assert false;
    }
  }

  /** Two multiples of u below one another are at least u apart. */
  lemma MultiplesApart(i: int, j: int, u: int)
    requires 0 < u && i * u < j * u
    ensures i < j && i * u + u <= j * u
  {
    if j <= i {
      MulMono(j, i, u);
      assert false;
    }
    MulMono(i + 1, j, u);
  }

  /** The least number of groups of size d that hold n members. */
  function CeilDiv(n: nat, d: nat): (r: nat)
    requires 0 < d
    ensures r * d >= n
    ensures n > 0 ==> r > 0 && (r - 1) * d < n
    ensures n == 0 ==> r == 0
  {
    var r := (n + d - 1) / d;
    assert (n + d - 1) == r * d + (n + d - 1) % d;
    assert n == 0 ==> r == 0 by {
      if n == 0 { DivUnique(0, d - 1, d); }
    }
    assert n > 0 ==> r > 0 && (r - 1) * d < n by {
      assert (r - 1) * d == r * d - d;
      if n > 0 && r <= 0 {
        MulMono(r, 0, d);
        assert false;
      }
    }
    r
  }

  /** CeilDiv is the least such number. */
  lemma CeilDivLeast(n: nat, d: nat, k: nat)
    requires 0 < d && n <= k * d
    ensures CeilDiv(n, d) <= k
  {
    if k < CeilDiv(n, d) {
      MulMono(k, CeilDiv(n, d) - 1, d);
      assert false;
    }
  }
}
