/** Numbers as the program's language has them: division and conversion that drop the fraction. */
module Numbers {

  function Bit(b: bool): nat {
    if b then 1 else 0
  }

  /** Division that drops the fraction, towards zero. */
  function Quotient(a: int, b: int): int
    requires b > 0
  {
    if a >= 0 then a / b else -(-a / b)
  }

  /** Conversion to an integer drops the fraction, towards zero. */
  function Truncate(x: real): int {
    if x >= 0.0 then x.Floor else -((-x).Floor)
  }

  /** What is dropped is less than one, and never changes the sign. */
  lemma TruncateDropsFraction(x: real)
    ensures x >= 0.0 ==> 0.0 <= Truncate(x) as real <= x < Truncate(x) as real + 1.0
    ensures x <= 0.0 ==> Truncate(x) as real - 1.0 < x <= Truncate(x) as real <= 0.0
  {
  }

  lemma FloorOfQuotient(a: int, b: int)
    requires b > 0
    ensures (a as real / b as real).Floor == a / b
  {
    var q, r := a / b, a % b;
    assert a == q * b + r;
    assert a as real == q as real * b as real + r as real;
    assert a as real / b as real == q as real + r as real / b as real;
    assert 0.0 <= r as real / b as real < 1.0;
  }

  lemma TruncateQuotient(a: int, b: int)
    requires b > 0
    ensures Truncate(a as real / b as real) == Quotient(a, b)
  {
    FloorOfQuotient(a, b);
    FloorOfQuotient(-a, b);
    assert -(a as real / b as real) == (-a) as real / b as real;
    assert a >= 0 <==> a as real / b as real >= 0.0;
  }
}
