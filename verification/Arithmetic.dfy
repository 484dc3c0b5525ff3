/** Facts about products and remainders that the solver does not find by itself. */
module Arithmetic {

  lemma Product(d: int, m: int)
    requires 1 <= d && 1 <= m
    ensures m <= d * m
  {
    assert d * m == (d - 1) * m + m;
    assert 0 <= (d - 1) * m;
  }

  lemma ModIs(q: int, r: int, m: int)
    requires 0 < m && 0 <= r < m
    ensures (q * m + r) % m == r
    ensures (q * m + r) / m == q
  {
    var a := q * m + r;
    var d := q - a / m;
    assert a == (a / m) * m + a % m;
    assert d * m == a % m - r by { assert d * m == q * m - (a / m) * m; }
    if d >= 1 { Product(d, m); }
    if d <= -1 { Product(-d, m); }
  }

  lemma ModAdd(a: int, m: int)
    requires 0 < m
    ensures (a + m) % m == a % m
  {
    var q := a / m;
    assert a == q * m + a % m;
    assert a + m == (q + 1) * m + a % m;
    ModIs(q + 1, a % m, m);
  }

  lemma ModBetween(a: int, r: int, m: int)
    requires 0 < m && a % m == 0 && 0 < r < m
    ensures (a + r) % m == r
  {
    var q := a / m;
    assert a == q * m + a % m;
    ModIs(q, r, m);
  }

  lemma MultipleBelow(x: int, m: int)
    requires 0 < x && 0 < m && x % m == 0
    ensures m <= x
  {
    if x < m {
      ModIs(0, x, m);
    }
  }

  lemma DivStep(x: int, m: int)
    requires 0 < m
    ensures (x + 1) / m == x / m + (if (x + 1) % m == 0 then 1 else 0)
  {
    var q, r := x / m, x % m;
    assert x == q * m + r;
    if r + 1 < m {
      ModIs(q, r + 1, m);
    } else {
      assert x + 1 == (q + 1) * m + 0;
      ModIs(q + 1, 0, m);
    }
  }
}
