/** Minimum, maximum, and division facts the solver needs spelled out. */
module Arith {

  function Min(a: int, b: int): int {
    if a < b then a else b
  }

  function Max(a: int, b: int): int {
    if a < b then b else a
  }

  lemma MulMonotone(x: int, y: int, d: int)
    requires d >= 0 && x <= y
    ensures x * d <= y * d
  {
  }

  lemma DivBounds(a: int, d: int)
    requires d > 0
    ensures (a / d) * d <= a < (a / d + 1) * d
  {
  }

  lemma DivUnique(a: int, d: int, q: int)
    requires d > 0 && q * d <= a < (q + 1) * d
    ensures a / d == q
  {
    DivBounds(a, d);
    if a / d < q {
      MulMonotone(a / d + 1, q, d);
    } else if a / d > q {
      MulMonotone(q + 1, a / d, d);
    }
  }

  lemma DivMonotone(a: int, b: int, d: int)
    requires d > 0 && a <= b
    ensures a / d <= b / d
  {
    DivBounds(a, d);
    DivBounds(b, d);
    if b / d < a / d {
      MulMonotone(b / d + 1, a / d, d);
    }
  }

  lemma DivPlusOne(a: int, d: int)
    requires d > 0
    ensures (a + d) / d == a / d + 1
  {
    DivBounds(a, d);
    DivUnique(a + d, d, a / d + 1);
  }

  lemma DivSmall(a: int, d: int)
    requires 0 <= a < d
    ensures a / d == 0
  {
    DivUnique(a, d, 0);
  }

  lemma DivModUnique(q: int, r: int, d: int)
    requires 0 <= r < d
    ensures (q * d + r) / d == q && (q * d + r) % d == r
  {
    assert (q + 1) * d == q * d + d;
    DivUnique(q * d + r, d, q);
  }
}
