/** Facts about products, quotients and remainders that the solver does not find alone. */
module Arithmetic {

  lemma MulAtLeast(d: int, m: int)
    requires d >= 1 && m > 0
    ensures d * m >= m
  {
  }

  lemma MulNonNegative(d: nat, m: nat)
    ensures d * m >= 0
  {
  }

  lemma MulMono(p: int, q: int, m: nat)
    requires p <= q
    ensures p * m <= q * m
  {
    Distribute(q, p, m);
    MulNonNegative(q - p, m);
  }

  lemma Distribute(p: int, q: int, m: int)
    ensures (p - q) * m == p * m - q * m
  {
  }

  lemma DivModIdentity(x: int, m: int)
    requires m > 0
    ensures x == (x / m) * m + x % m && 0 <= x % m < m
  {
  }

  lemma DivModUnique(x: int, m: int, q: int, r: int)
    requires m > 0 && x == q * m + r && 0 <= r < m
    ensures x / m == q && x % m == r
  {
    var q', r' := x / m, x % m;
    DivModIdentity(x, m);
    Distribute(q, q', m);
    if q > q' { MulAtLeast(q - q', m); }
    if q < q' { Distribute(q', q, m); MulAtLeast(q' - q, m); }
  }

  /** A reduction before an addition makes no difference after it. */
  lemma ModAdd(x: int, y: int, m: int)
    requires m > 0
    ensures (x % m + y) % m == (x + y) % m
  {
    var t := x % m + y;
    DivModIdentity(x, m);
    DivModIdentity(t, m);
    Distribute(t / m, -(x / m), m);
    DivModUnique(x + y, m, t / m + x / m, t % m);
  }

  lemma QuotientAtMost(t: nat, a: nat, q: nat)
    requires a > 0 && t < q * a + a
    ensures t / a * a <= q * a
  {
    DivModIdentity(t, a);
    var p := t / a;
    if p > q { Distribute(p, q, a); MulAtLeast(p - q, a); } else { MulMono(p, q, a); }
  }

  lemma QuotientNonNegative(x: nat, m: nat)
    requires m > 0
    ensures x / m >= 0
  {
    DivModIdentity(x, m);
    if x / m < 0 { MulMono(x / m, -1, m); }
  }

  /** Integer division of naturals. */
  function Quotient(x: nat, m: nat): nat
    requires m > 0
  {
    QuotientNonNegative(x, m);
    x / m
  }
}
