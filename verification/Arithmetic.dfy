// Products, quotients and remainders.
module Arithmetic {

  lemma MulMonotone(a: nat, b: nat, c: nat)
    requires a <= b
    ensures a * c <= b * c
  {
  }

  lemma MulSucc(a: nat, c: nat)
    ensures (a + 1) * c == a * c + c
  {
  }

  lemma QuotientIs(i: nat, per: nat, k: nat)
    requires per >= 1
    ensures i / per == k <==> k * per <= i < k * per + per
  {
    var q := i / per;
    assert q * per <= i < q * per + per;
    if q < k {
      MulSucc(q, per);
      MulMonotone(q + 1, k, per);
    } else if q > k {
      MulSucc(k, per);
      MulMonotone(k + 1, q, per);
    }
  }

  lemma DivMod(n: nat, k: nat, q: nat, r: nat)
    requires n == q * k + r && r < k
    ensures n / k == q && n % k == r
  {
    QuotientIs(n, k, q);
    assert n == (n / k) * k + n % k;
  }

  /** Counting up by one moves the quotient at every multiple. */
  lemma QuotientStep(n: nat, k: nat)
    requires k > 0
    ensures (n + 1) / k == n / k + if (n + 1) % k == 0 then 1 else 0
  {
    var q, r := n / k, n % k;
    if r + 1 == k {
      MulSucc(q, k);
      DivMod(n + 1, k, q + 1, 0);
    } else {
      DivMod(n + 1, k, q, r + 1);
    }
  }
}
