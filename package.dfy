/**
 * demos/package/package.go: `add`, `multiply` and the loop-based `power`
 * on Go `int` (64 bits, wrapping on overflow).
 */
module Package {
  import opened GoInt

  /** `add`: the sum, wrapped to 64 bits. */
  function Add(x: Int64, y: Int64): (r: Int64)
    ensures MinInt64 <= x + y <= MaxInt64 ==> r == x + y
    ensures (r - (x + y)) % Modulus == 0
  {
    Wrap(x + y)
  }

  /** `multiply`: the product, wrapped to 64 bits. */
  function Multiply(x: Int64, y: Int64): (r: Int64)
    ensures MinInt64 <= x * y <= MaxInt64 ==> r == x * y
    ensures (r - x * y) % Modulus == 0
  {
    Wrap(x * y)
  }

  /** x to the n-th power in mathematical integers. */
  function Pow(x: int, n: nat): int
  {
    if n == 0 then 1 else Pow(x, n - 1) * x
  }

  /**
   * What `power(x, y)` returns: 1 when the loop does not run (y <= 0),
   * otherwise x^y wrapped to 64 bits.
   */
  function PowerOf(x: Int64, y: Int64): (r: Int64)
    ensures y <= 0 ==> r == 1
    ensures y >= 0 && MinInt64 <= Pow(x, y) <= MaxInt64 ==> r == Pow(x, y)
    ensures y >= 0 ==> (r - Pow(x, y)) % Modulus == 0
  {
    if y <= 0 then 1 else Wrap(Pow(x, y))
  }

  /** `power`: multiply 1 by x, y times. */
  method Power(x: Int64, y: Int64) returns (result: Int64)
    ensures result == PowerOf(x, y)
  {
    result := 1;
    var i: Int64 := 0;
    while i < y
      invariant 0 <= i && (i == 0 || i <= y)
      invariant result == Wrap(Pow(x, i))
    {
      WrapMul(Pow(x, i), x);
      result := Wrap(result * x);
      i := i + 1;
    }
  }

  /** One more loop iteration multiplies the result by x. */
  lemma PowerStep(x: Int64, y: Int64)
    requires 0 <= y < MaxInt64
    ensures PowerOf(x, y + 1) == Multiply(x, PowerOf(x, y))
  {
    WrapMul(Pow(x, y), x);
    assert Wrap(Pow(x, y)) * x == x * Wrap(Pow(x, y));
  }

  /** `power(x, 2)`, as `main` uses it, is `multiply(x, x)`. */
  lemma PowerSquare(x: Int64)
    ensures PowerOf(x, 2) == Multiply(x, x)
  {
    assert Pow(x, 1) == x;
    assert Pow(x, 2) == x * x;
  }

  /** x^(a+b) = x^a * x^b, also after wrapping to 64 bits. */
  lemma {:induction false} PowAdd(x: int, a: nat, b: nat)
    ensures Pow(x, a + b) == Pow(x, a) * Pow(x, b)
    decreases b
  {
    if b > 0 {
      PowAdd(x, a, b - 1);
      assert Pow(x, a + b) == Pow(x, a + b - 1) * x;
      assert Pow(x, a) * Pow(x, b) == Pow(x, a) * (Pow(x, b - 1) * x);
    }
  }

  lemma PowerAdd(x: Int64, a: Int64, b: Int64)
    requires 0 <= a && 0 <= b && a + b <= MaxInt64
    ensures PowerOf(x, a + b) == Multiply(PowerOf(x, a), PowerOf(x, b))
  {
    PowAdd(x, a, b);
    WrapMul(Pow(x, a), PowerOf(x, b));
    WrapMul(Pow(x, b), Pow(x, a));
    assert PowerOf(x, b) * Pow(x, a) == Pow(x, a) * PowerOf(x, b);
    assert Pow(x, b) * Pow(x, a) == Pow(x, a) * Pow(x, b);
  }

  /** Small results are exact. */
  lemma PowerExamples()
    ensures PowerOf(5, 2) == 25 && PowerOf(7, 0) == 1 && PowerOf(7, -3) == 1
  {
    assert Pow(5, 2) == 25;
  }

  /** 2^64 wraps around to 0. */
  lemma PowerWrapsAround()
    ensures PowerOf(2, 64) == 0
  {
    assert Pow(2, 4) == 16;
    PowAdd(2, 4, 4);
    PowAdd(2, 8, 8);
    PowAdd(2, 16, 16);
    PowAdd(2, 32, 32);
    assert Wrap(Modulus) == 0;
  }
}
