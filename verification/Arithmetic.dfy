/** The larger of two numbers, and division facts the solver does not find by itself. */
module Arithmetic {
  function Max(a: nat, b: nat): nat {
    if a < b then b else a
  }

  lemma Product(n: int, d: int)
    requires n > 0
    ensures d >= 1 ==> n * d >= n
  {
    if d >= 1 { assert n * d == n + n * (d - 1); }
  }

  lemma DivModUnique(a: int, n: int, q: int, r: int)
    requires n > 0 && a == n * q + r && 0 <= r < n
    ensures a / n == q && a % n == r
  {
    var q', r' := a / n, a % n;
    Product(n, q - q');
    Product(n, q' - q);
    assert n * (q - q') == r' - r && n * (q' - q) == r - r';
  }

  lemma ModNext(a: int, m: int)
    requires m > 0
    ensures (a + 1) % m == if a % m + 1 == m then 0 else a % m + 1
  {
    var q, r := a / m, a % m;
    assert a == m * q + r;
    if r + 1 == m {
      assert a + 1 == m * (q + 1);
      DivModUnique(a + 1, m, q + 1, 0);
    } else {
      DivModUnique(a + 1, m, q, r + 1);
    }
  }
}
