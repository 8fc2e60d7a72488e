/** Products and floors that the solver does not find on its own. */
module Arithmetic {
  lemma MulMono(x: int, y: int, k: int)
    requires x <= y && k >= 0
    ensures x * k <= y * k && k * x <= k * y
  {
  }

  lemma Distribute(x: int, y: int, k: int)
    ensures (x + y) * k == x * k + y * k && (x - y) * k == x * k - y * k
  {
  }

  lemma DivMod(n: nat, d: int)
    requires d > 0
    ensures n == n / d * d + n % d && n / d >= 0 && 0 <= n % d < d
  {
  }

  lemma QuotientAtLeast(n: nat, q: nat, d: int)
    requires d > 0 && q * d <= n
    ensures q <= n / d
  {
    DivMod(n, d);
    if n / d < q {
      MulMono(n / d + 1, q, d);
      Distribute(n / d, 1, d);
    }
  }

  lemma FloorsAdd(x: nat, y: nat, d: int)
    requires d > 0
    ensures x / d + y / d <= (x + y) / d
  {
    DivMod(x, d);
    DivMod(y, d);
    Distribute(x / d, y / d, d);
    QuotientAtLeast(x + y, x / d + y / d, d);
  }

  lemma FloorMono(x: nat, y: nat, d: int)
    requires d > 0 && x <= y
    ensures 0 <= x / d <= y / d
  {
    FloorsAdd(x, y - x, d);
  }
}
