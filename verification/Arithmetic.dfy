/** Products and quotients of integers. */
module Arithmetic {

  lemma ProductsOrdered(a: int, b: int, c: int)
    requires a <= b && c >= 0
    ensures a * c <= b * c
  {
  }

  lemma ProductApart(gap: int, b: int)
    requires b > 0
    ensures gap >= 1 ==> gap * b >= b
    ensures gap <= -1 ==> gap * b <= -b
  {
  }

  lemma DivisionIs(a: int, b: int, quotient: int, rest: int)
    requires b > 0 && a == quotient * b + rest && 0 <= rest < b
    ensures a / b == quotient && a % b == rest
  {
    var gap := a / b - quotient;
    assert a == (a / b) * b + a % b;
    assert gap * b == (a / b) * b - quotient * b == rest - a % b;
    ProductApart(gap, b);
  }

  lemma QuotientInRange(job: nat, rows: nat, columns: nat)
    requires job < rows * columns
    ensures columns > 0 && job / columns < rows
  {
  }
}
