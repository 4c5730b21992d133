// Small facts about products and whole quotients.
module Arithmetic {

  lemma NotNegative(x: int, d: int)
    requires 0 <= x && 0 < d
    ensures 0 <= x / d
  {
  }

  lemma Quotient(x: int, d: int)
    requires 0 < d
    ensures (x / d) * d <= x < (x / d) * d + d
  {
  }

  lemma Grows(i: int, j: int, d: int)
    requires i <= j && 0 <= d
    ensures i * d <= j * d
  {
    if i < j {
      assert (j - i) * d >= 0;
      assert (j - i) * d == j * d - i * d;
    }
  }

  lemma Next(i: int, d: int)
    ensures (i + 1) * d == i * d + d
  {
  }

  lemma QuotientIs(x: int, d: int, q: int)
    requires 0 < d && q * d <= x < q * d + d
    ensures x / d == q
  {
    Quotient(x, d);
    Next(q, d);
    Next(x / d, d);
    if q < x / d {
      Grows(q + 1, x / d, d);
    } else if x / d < q {
      Grows(x / d + 1, q, d);
    }
  }

  lemma DivMod(q: int, d: int, r: int)
    requires 0 <= r < d
    ensures (q * d + r) / d == q && (q * d + r) % d == r
  {
    QuotientIs(q * d + r, d, q);
    Split(q * d + r, d);
  }

  lemma Split(x: int, d: int)
    requires 0 < d
    ensures x == (x / d) * d + x % d && 0 <= x % d < d
  {
  }

  lemma QuotientBelow(x: int, n: int, d: int)
    requires 0 <= x < n * d && 0 < d
    ensures 0 <= x / d < n
  {
    NotNegative(x, d);
    Quotient(x, d);
    if n <= x / d {
      Grows(n, x / d, d);
    }
  }

  lemma ZeroProduct(a: int, b: int)
    ensures a == 0 || b == 0 ==> a * b == 0
  {
  }

  lemma Positive(a: int, b: int)
    requires 0 < a && 0 < b
    ensures 0 < a * b
  {
  }

  lemma Associate(a: int, b: int, c: int)
    ensures (a * b) * c == a * (b * c) && a * b == b * a
  {
  }

  lemma Distribute(a: int, b: int, c: int)
    ensures (a + b) * c == a * c + b * c
  {
  }

  // Dividing twice is dividing by the product.
  lemma DivDiv(x: int, d: int, w: int)
    requires 0 < d && 0 < w
    ensures 0 < w * d && (x / d) / w == x / (w * d)
  {
    Positive(w, d);
    var q := x / d;
    var p := q / w;
    Split(x, d);
    Split(q, w);
    assert x == (p * w + q % w) * d + x % d;
    Distribute(p * w, q % w, d);
    Associate(p, w, d);
    Grows(q % w + 1, w, d);
    Next(q % w, d);
    Grows(0, q % w, d);
    assert p * (w * d) <= x < p * (w * d) + w * d;
    QuotientIs(x, w * d, p);
  }
}
