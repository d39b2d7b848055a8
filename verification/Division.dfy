/** Two facts about quotients that the other modules need. */
module Division {

  lemma TimesMore(n: nat, p: nat, q: nat)
    requires p > q
    ensures n * p >= n * q + n
  {
    var d := p - q - 1;
    assert p == q + 1 + d;
    assert n * p == n * q + n + n * d;
  }

  lemma QuotientBound(n: nat, p: nat, r: nat, q: nat, t: nat)
    requires t < n && n * p + r <= n * q + t
    ensures p <= q
  {
    if p > q {
      TimesMore(n, p, q);
    }
  }

  lemma QuotientIs(a: nat, n: nat, q: nat, r: nat)
    requires r < n && a == n * q + r
    ensures a / n == q
  {
    QuotientBound(n, a / n, a % n, q, r);
    QuotientBound(n, q, r, a / n, a % n);
  }
}
