/** Quotients and remainders by a variable number. */
module Division {

  /** A nonzero multiple of p is at least p in size. */
  lemma {:induction false} Multiple(k: int, p: int)
    requires p > 0
    ensures k >= 1 ==> k * p >= p
    ensures k <= -1 ==> k * p <= -p
  {
    if k >= 1 { assert (k - 1) * p >= 0; }
    if k <= -1 { assert (-k - 1) * p >= 0; }
  }

  lemma {:induction false} Ordered(a: int, b: int, p: int)
    requires p > 0
    ensures a < b ==> a * p + p <= b * p
    ensures a == b ==> a * p == b * p
  {
    Multiple(b - a, p);
    assert (b - a) * p == b * p - a * p;
  }

  lemma {:induction false} DivModUnique(n: int, p: int, q: int, r: int)
    requires p > 0 && 0 <= r < p && n == q * p + r
    ensures n / p == q && n % p == r
  {
    var q', r' := n / p, n % p;
    assert n == q' * p + r';
    assert (q - q') * p == r' - r;
    Multiple(q - q', p);
  }
}
