/** Facts about integer division that the other modules share. */
module Arithmetic {

  lemma MultipleAtLeast(m: int, d: int)
    requires m > 0 && d >= 1
    ensures m * d >= m
  {
  }

  lemma ModuloUnique(a: int, m: int, q: int, r: int)
    requires m > 0 && 0 <= r < m && a == m * q + r
    ensures a % m == r && a / m == q
  {
    var d := a / m - q;
    assert a == m * (a / m) + a % m;
    assert m * d == r - a % m;
    assert m * -d == a % m - r;
    if d >= 1 {
      MultipleAtLeast(m, d);
    } else if d <= -1 {
      MultipleAtLeast(m, -d);
    }
  }

  lemma SuccessorModulo(a: int, m: int)
    requires m > 0
    ensures (a % m + 1) % m == (a + 1) % m
  {
    var q, r := a / m, a % m;
    if r + 1 == m {
      assert m * (q + 1) == m * q + m;
      ModuloUnique(a + 1, m, q + 1, 0);
      ModuloUnique(m, m, 1, 0);
    } else {
      ModuloUnique(a + 1, m, q, r + 1);
      ModuloUnique(r + 1, m, 0, r + 1);
    }
  }
}
