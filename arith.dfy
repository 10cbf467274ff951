/** Facts about multiplication and division that the solver does not find unaided. */
module Arith {

  lemma MulMono(a: int, b: int, c: int)
    requires a <= b && c >= 0
    ensures a * c <= b * c
  {
    assert b * c - a * c == (b - a) * c;
  }

  lemma DivMod(x: int, d: int)
    requires d > 0
    ensures x == d * (x / d) + x % d && 0 <= x % d < d
  {
  }

  /** The quotient is the unique `q` with `x == q * d + r` and `0 <= r < d`. */
  lemma QuotUnique(x: int, d: int, q: int, r: int)
    requires d > 0 && 0 <= r < d && x == q * d + r
    ensures x / d == q
  {
    DivMod(x, d);
    if x / d < q {
      MulMono(x / d + 1, q, d);
    } else if x / d > q {
      MulMono(q + 1, x / d, d);
    }
  }

  lemma DivMono(x: int, y: int, d: int)
    requires 0 <= x <= y && d > 0
    ensures x / d <= y / d
  {
    DivMod(x, d);
    DivMod(y, d);
    if x / d > y / d {
      MulMono(y / d + 1, x / d, d);
    }
  }

  lemma DivAddDivisor(a: int, d: int)
    requires d > 0
    ensures (a + d) / d == a / d + 1
  {
    DivMod(a, d);
    QuotUnique(a + d, d, a / d + 1, a % d);
  }

  lemma MulDiv(q: int, d: int)
    requires d > 0
    ensures (q * d) / d == q
  {
    QuotUnique(q * d, d, q, 0);
  }

  lemma MulLeReal(a: real, b: real, c: real)
    requires a <= b && c >= 0.0
    ensures a * c <= b * c
  {
    assert b * c - a * c == (b - a) * c;
  }

  lemma MulLtReal(a: real, b: real, c: real)
    requires a < b && c > 0.0
    ensures a * c < b * c
  {
    assert b * c - a * c == (b - a) * c;
  }

  lemma BelowQuotient(a: real, s: real, n: real)
    requires n > 0.0 && a * n <= s
    ensures a <= s / n
  {
    var q := s / n;
    assert q * n == s;
    if a > q {
      MulLtReal(q, a, n);
    }
  }

  lemma AboveQuotient(a: real, s: real, n: real)
    requires n > 0.0 && s <= a * n
    ensures s / n <= a
  {
    var q := s / n;
    assert q * n == s;
    if a < q {
      MulLtReal(a, q, n);
    }
  }
}
