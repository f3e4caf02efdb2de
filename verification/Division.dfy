/** Quotients and remainders with a variable divisor. */
module Division {
  lemma MulStep(d: nat, p: nat, q: nat)
    requires p < q
    ensures d * p + d <= d * q
  {
    assert d * q == d * p + d + d * (q - p - 1);
    assert d * (q - p - 1) >= 0;
  }

  lemma DivBounds(x: nat, d: nat)
    requires d > 0
    ensures x == d * (x / d) + x % d
    ensures x / d >= 1 ==> d <= x
  {
    if x / d >= 1 {
      MulStep(d, 0, x / d);
    }
  }

  lemma DivUnique(x: nat, d: nat, q: nat, rem: nat)
    requires d > 0 && rem < d && x == d * q + rem
    ensures x / d == q && x % d == rem
  {
    var p := x / d;
    DivBounds(x, d);
    if p < q {
      MulStep(d, p, q);
    } else if q < p {
      MulStep(d, q, p);
    }
  }

  lemma ShiftQuotient(x: nat, d: nat, h: nat)
    requires d > 0
    ensures (x + d * h) / d == x / d + h && (x + d * h) % d == x % d
  {
    DivBounds(x, d);
    DivUnique(x + d * h, d, x / d + h, x % d);
  }

  lemma DivParts(x: nat, d: nat)
    requires d > 0
    ensures x == (x / d) * d + x % d && x % d < d
  {
    DivBounds(x, d);
  }

  lemma QuotientBelow(x: nat, d: nat, n: nat)
    requires x < n * d
    ensures d > 0 && x / d < n
  {
    if d > 0 && x / d >= n {
      DivBounds(x, d);
      if x / d > n {
        MulStep(d, n, x / d);
      }
    }
  }
}
