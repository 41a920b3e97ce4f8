// Facts about multiplication and division that the solver needs spelled out.

module Numbers {
  lemma Distribute(p: nat, q: int, d: int)
    ensures p * (q - d) == p * q - p * d
  {
  }

  lemma AtLeastOnce(p: nat, k: int)
    requires k >= 1
    ensures p * k >= p
  {
  }

  // Quotient and remainder are unique.
  lemma SameQuotient(p: nat, q: int, r: int, d: int, m: int)
    requires p > 0 && 0 <= r < p && 0 <= m < p && p * q + r == p * d + m
    ensures q == d && r == m
  {
    Distribute(p, q, d);
    Distribute(p, d, q);
    if q > d {
      AtLeastOnce(p, q - d);
    } else if q < d {
      AtLeastOnce(p, d - q);
    }
  }
}
