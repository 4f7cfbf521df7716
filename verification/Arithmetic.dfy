/** Division and multiplication facts with a variable divisor. */
module Arithmetic {

  lemma DivUnique(a: nat, n: nat, q: nat, r: nat)
    requires n > 0 && a == q * n + r && r < n
    ensures a / n == q && a % n == r
  {
    var q', r' := a / n, a % n;
    assert a == q' * n + r' && 0 <= r' < n;
    if q' < q {
      assert (q' + 1) * n <= q * n by { MulMono(q' + 1, q, n); }
    } else if q < q' {
      assert (q + 1) * n <= q' * n by { MulMono(q + 1, q', n); }
    }
  }

  lemma MulMono(a: nat, b: nat, n: nat)
    requires a <= b
    ensures a * n <= b * n
  {
  }
}
