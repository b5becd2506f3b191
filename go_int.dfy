/**
 * Go's fixed-width integers on top of Dafny's unbounded `int`: the range of
 * `int` (64-bit on the platforms the programs target) and `uint64`, the
 * two's-complement wrap-around of `+`, `-` and `*`, the reinterpreting
 * conversion `uint64(x)`, and Go's `/`, which truncates toward zero.
 */
module GoInt {

  const Modulus: int := 0x1_0000_0000_0000_0000
  const MinInt64: int := -0x8000_0000_0000_0000
  const MaxInt64: int := 0x7FFF_FFFF_FFFF_FFFF

  type Int64 = x: int | MinInt64 <= x <= MaxInt64
  type Uint64 = x: int | 0 <= x < Modulus

  /** The int64 that a Go computation with mathematical value x produces. */
  function Wrap(x: int): (r: Int64)
    ensures MinInt64 <= x <= MaxInt64 ==> r == x
    ensures (r - x) % Modulus == 0
  {
    (x - MinInt64) % Modulus + MinInt64
  }

  /** `uint64(x)` for a signed x: the same 64 bits read as unsigned. */
  function ToUint64(x: int): (r: Uint64)
    ensures 0 <= x < Modulus ==> r == x
    ensures (r - x) % Modulus == 0
  {
    x % Modulus
  }

  /** Go's integer division: the quotient truncated toward zero. */
  function Quo(a: int, b: int): (q: int)
    requires b != 0
    ensures Abs(b * q) <= Abs(a) < Abs(b * q) + Abs(b)
    ensures a >= 0 && b > 0 ==> q == a / b
    ensures q != 0 ==> (q > 0 <==> (a > 0) == (b > 0))
  {
    var q0 := Abs(a) / Abs(b);
    QuoBounds(a, b, q0);
    if (a >= 0) == (b >= 0) then q0 else -q0
  }

  lemma QuoBounds(a: int, b: int, q0: int)
    requires b != 0 && q0 == Abs(a) / Abs(b)
    ensures q0 >= 0 && Abs(b * q0) == Abs(b) * q0 && Abs(b * -q0) == Abs(b) * q0
    ensures Abs(b) * q0 <= Abs(a) < Abs(b) * q0 + Abs(b)
    ensures q0 == 0 <==> Abs(a) < Abs(b)
  {
    var n, d := Abs(a), Abs(b);
    var r := n % d;
    assert n == d * q0 + r && 0 <= r < d;
    var p := d * q0;
    assert p >= 0 by {
      MulNonNegative(d, q0);
    }
    if b > 0 {
      assert b * q0 == p && b * -q0 == -p;
    } else {
      assert b * q0 == -p && b * -q0 == p;
    }
  }

  lemma MulNonNegative(x: int, y: int)
    requires x >= 0 && y >= 0
    ensures x * y >= 0
  {
  }

  function Abs(x: int): nat { if x < 0 then -x else x }

  /** Adding a multiple of 2^64 does not change the wrapped value. */
  lemma WrapShift(x: int, t: int)
    ensures Wrap(x + Modulus * t) == Wrap(x)
  {
    var a := x - MinInt64;
    var q, r := a / Modulus, a % Modulus;
    assert a + Modulus * t == Modulus * (q + t) + r;
    DivRemUnique(a + Modulus * t, q + t, r);
  }

  /** Wrapping an intermediate product does not change the final wrapped product. */
  lemma WrapMul(a: int, b: int)
    ensures Wrap(Wrap(a) * b) == Wrap(a * b)
  {
    var w := Wrap(a);
    var t := (w - a) / Modulus;
    assert w - a == Modulus * t;
    assert w * b == a * b + Modulus * (t * b) by {
      assert w * b == (a + Modulus * t) * b;
    }
    WrapShift(a * b, t * b);
  }

  /** Euclidean division has one quotient and remainder. */
  lemma DivUnique(h: int, d: int, q: int, r: int)
    requires d >= 1 && h == d * q + r && 0 <= r < d
    ensures h % d == r && h / d == q
  {
    var q0, r0 := h / d, h % d;
    assert h == d * q0 + r0;
    var k := q - q0;
    assert d * q == d * q0 + d * k;
    assert d * k == r0 - r;
    if k >= 1 {
      MulAtLeast(d, k);
    } else if k <= -1 {
      MulAtLeast(d, -k);
    }
  }

  lemma MulAtLeast(d: int, k: int)
    requires d >= 1 && k >= 1
    ensures d * k >= d
  {
  }

  lemma DivRemUnique(x: int, q: int, r: int)
    requires x == Modulus * q + r && 0 <= r < Modulus
    ensures x % Modulus == r
  {
  }
}
