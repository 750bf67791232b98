/** Quotients and remainders. */
module Arith {
  lemma Multiples(d: int, m: nat)
    ensures d > 0 ==> d * m >= m
    ensures d < 0 ==> d * m + m <= 0
  {
  }

  lemma OnlyRemainder(a: nat, m: nat, q: nat, r: nat)
    requires r < m && a == q * m + r
    ensures r == a % m
  {
    var p, d := a / m, a / m - q;
    assert a == p * m + a % m;
    assert d * m == p * m - q * m;
    Multiples(d, m);
  }

  lemma OnlyQuotient(a: nat, m: nat, q: nat, r: nat)
    requires r < m && a == q * m + r
    ensures q == a / m
  {
    var d := a / m - q;
    assert a == (a / m) * m + a % m;
    assert d * m == (a / m) * m - q * m;
    Multiples(d, m);
  }

  lemma NextRemainder(k: nat, m: nat)
    requires m > 0
    ensures (k + 1) % m == if k % m + 1 == m then 0 else k % m + 1
  {
    var q, r := k / m, k % m;
    assert k == q * m + r;
    if r + 1 == m {
      assert k + 1 == (q + 1) * m;
      OnlyRemainder(k + 1, m, q + 1, 0);
    } else {
      OnlyRemainder(k + 1, m, q, r + 1);
    }
  }
}
