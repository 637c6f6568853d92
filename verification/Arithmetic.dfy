/** Products and quotients of integers, where the solver needs a hand. */
module Arithmetic {

  lemma MulMonotone(a: int, b: int, c: nat)
    requires a <= b
    ensures a * c <= b * c
  {}

  lemma MulStep(a: int, b: int)
    ensures (a + 1) * b == a * b + b
  {}

  lemma MulStepRight(a: int, n: int)
    ensures a * (n + 1) == a * n + a
  {}

  /** Products of different integers are at least one factor apart. */
  lemma MulGap(a: int, b: int, c: nat)
    requires a < b
    ensures a * c + c <= b * c
  {
    MulStep(a, c);
    MulMonotone(a + 1, b, c);
  }

  lemma DivSandwich(a: nat, n: nat)
    requires n > 0
    ensures a / n * n <= a < a / n * n + n
  {
    assert a == a / n * n + a % n;
  }

  lemma DivUnique(a: nat, n: nat, q: nat)
    requires n > 0 && q * n <= a < q * n + n
    ensures a / n == q
  {
    DivSandwich(a, n);
    if a / n < q {
      MulGap(a / n, q, n);
    } else if q < a / n {
      MulGap(q, a / n, n);
    }
  }
}
