/** Products and quotients of natural numbers. */
module Arithmetic {

  lemma MulGrows(n: nat, a: int, b: int)
    requires a <= b
    ensures n * a <= n * b && a * n <= b * n
  {
  }

  lemma MulSnoc(a: nat, n: nat)
    ensures (a + 1) * n == a * n + n
  {
  }

  lemma DivGrows(x: nat, y: nat, n: nat)
    requires x <= y && n > 0
    ensures x / n <= y / n
  {
    if x / n > y / n { MulGrows(n, y / n + 1, x / n); }
  }

  /** Quotient and remainder are unique. */
  lemma ModUnique(x: nat, n: nat, q: nat, r: nat)
    requires n > 0 && r < n && x == n * q + r
    ensures x % n == r && x / n == q
  {
    var q' := x / n;
    if q' < q { MulGrows(n, q' + 1, q); }
    if q < q' { MulGrows(n, q + 1, q'); }
  }

  /** The product, by repeated addition. */
  function Times(a: nat, b: nat): nat {
    if a == 0 then 0 else Times(a - 1, b) + b
  }

  lemma {:induction false} TimesIsProduct(a: nat, b: nat)
    ensures Times(a, b) == a * b
  {
    if a > 0 { TimesIsProduct(a - 1, b); }
  }
}
