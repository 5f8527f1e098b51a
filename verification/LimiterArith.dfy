/** Division facts behind the token bucket: how a quota of `max` per `R` slots
    splits into whole tokens. */
module LimiterArith {

  function CeilDiv(a: nat, r: nat): (c: nat)
    requires r > 0
    ensures a <= c * r < a + r
  {
    var q := a / r;
    assert q * r <= a < q * r + r;
    if a % r == 0 then q else
      assert (q + 1) * r == q * r + r;
      q + 1
  }

  lemma MulLe(a: int, b: int, r: int)
    requires r > 0
    requires a <= b
    ensures a * r <= b * r
  {
    assert (b - a) * r >= 0;
    assert (b - a) * r == b * r - a * r;
  }

  lemma MulLt(a: int, b: int, r: int)
    requires r > 0
    requires a * r < b * r
    ensures a < b
  {
    if b <= a {
      MulLe(b, a, r);
    }
  }

  lemma DivBelow(a: nat, n: nat, r: nat)
    requires r > 0 && a < n * r
    ensures a / r < n
  {
    assert (a / r) * r <= a;
    MulLt(a / r, n, r);
  }

  /** The bounds in CeilDiv's contract determine it. */
  lemma CeilDivUnique(a: nat, r: nat, c: int)
    requires r > 0
    requires a <= c * r < a + r
    ensures c == CeilDiv(a, r)
  {
    var d := CeilDiv(a, r);
    assert (d + 1) * r == d * r + r;
    assert (c + 1) * r == c * r + r;
    MulLt(c, d + 1, r);
    MulLt(d, c + 1, r);
  }

  lemma DivUnique(a: nat, r: nat, q: int)
    requires r > 0
    requires q * r <= a < q * r + r
    ensures q == a / r
  {
    var d := a / r;
    assert d * r <= a < d * r + r;
    assert (d + 1) * r == d * r + r;
    assert (q + 1) * r == q * r + r;
    MulLt(q, d + 1, r);
    MulLt(d, q + 1, r);
  }

  /** Whole multiples of the divisor pass straight through. */
  lemma CeilDivShift(a: nat, r: nat, q: nat)
    requires r > 0
    ensures CeilDiv(a + q * r, r) == CeilDiv(a, r) + q
  {
    assert (CeilDiv(a, r) + q) * r == CeilDiv(a, r) * r + q * r;
    CeilDivUnique(a + q * r, r, CeilDiv(a, r) + q);
  }

  lemma BetweenDivisions(d: int, b: nat, r: nat)
    requires r > 0
    requires b - r < d * r < b + r
    ensures b / r <= d <= CeilDiv(b, r)
  {
    var f, c := b / r, CeilDiv(b, r);
    assert f * r <= b <= c * r;
    assert (d + 1) * r == d * r + r;
    assert (c + 1) * r == c * r + r;
    MulLt(f, d + 1, r);
    MulLt(d, c + 1, r);
  }

  /** The tokens earned between two points differ from the exact share by less than one. */
  lemma CeilDivDifference(a: nat, b: nat, r: nat)
    requires r > 0
    ensures b / r <= CeilDiv(a + b, r) - CeilDiv(a, r) <= CeilDiv(b, r)
  {
    var d := CeilDiv(a + b, r) - CeilDiv(a, r);
    assert d * r == CeilDiv(a + b, r) * r - CeilDiv(a, r) * r;
    assert b - r < d * r < b + r;
    BetweenDivisions(d, b, r);
  }

  lemma CeilDivMonotone(a: nat, b: nat, r: nat)
    requires r > 0
    requires a <= b
    ensures CeilDiv(a, r) <= CeilDiv(b, r)
  {
    CeilDivDifference(a, b - a, r);
  }
}
