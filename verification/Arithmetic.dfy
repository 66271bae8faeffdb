// Facts about products and quotients that the solver needs spelled out.
module Arithmetic {

  function Quot(a: int, d: int): (q: int)
    requires a >= 0 && d > 0
    ensures q >= 0
  {
    a / d
  }

  /** A smaller multiplier is smaller by at least one step. */
  lemma Below(p: int, q: int, d: int)
    requires d >= 0
    ensures p < q ==> p * d + d <= q * d
  {
    if p < q {
      var k := q - p - 1;
      assert k * d >= 0;
      assert q * d == (p + 1 + k) * d == p * d + d + k * d;
    }
  }

  lemma Scaled(p: int, q: int, d: int)
    requires p <= q && d >= 0
    ensures p * d <= q * d
  {
    Below(p, q, d);
  }

  lemma Division(a: int, d: int)
    requires a >= 0 && d > 0
    ensures Quot(a, d) * d <= a < Quot(a, d) * d + d
    ensures a % d == a - Quot(a, d) * d
  {
    assert a == (a / d) * d + a % d;
  }

  lemma DivUnique(a: int, d: int, q: int)
    requires a >= 0 && d > 0 && q * d <= a < q * d + d
    ensures Quot(a, d) == q && a % d == a - q * d
  {
    hide Quot;
    Division(a, d);
    Below(Quot(a, d), q, d);
    Below(q, Quot(a, d), d);
  }
}
