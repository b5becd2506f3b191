/**
 * Bitwise operations on unbounded integers, read as two's-complement
 * bit strings (a negative number has infinitely many leading ones, which is
 * exactly how a sign-extended Go `int` behaves). Go's `|`, `&`, `^` and `>>`
 * on 64-bit values agree with these on every value in range.
 */
module Bits {
  import opened GoInt

  function Pow2(k: nat): (r: nat)
    ensures r >= 1
  {
    if k == 0 then 1 else 2 * Pow2(k - 1)
  }

  lemma {:induction false} Pow2Monotone(j: nat, k: nat)
    requires j <= k
    ensures Pow2(j) <= Pow2(k)
  {
    if j < k {
      Pow2Monotone(j, k - 1);
    }
  }

  lemma {:induction false} Pow2Sum(a: nat, b: nat)
    ensures Pow2(a + b) == Pow2(a) * Pow2(b)
    decreases a
  {
    if a > 0 {
      Pow2Sum(a - 1, b);
    }
  }

  lemma Pow2Of32()
    ensures Pow2(32) == 0x1_0000_0000
  {
    assert Pow2(2) == 4;
    Pow2Sum(2, 2);
    Pow2Sum(4, 4);
    Pow2Sum(8, 8);
    Pow2Sum(16, 16);
  }

  /** Bit i of x: x shifted right i times, low bit. */
  function Bit(x: int, i: nat): bool
    decreases i
  {
    if i == 0 then x % 2 == 1 else Bit(x / 2, i - 1)
  }

  /** Arithmetic shift right (Go's `>>` on a signed integer): k floor-halvings. */
  function Shr(x: int, k: nat): int
    decreases k
  {
    if k == 0 then x else Shr(x / 2, k - 1)
  }

  /** Bitwise OR in two's complement. */
  function Or(a: int, b: int): int
    decreases Size(a) + Size(b)
  {
    if IsSignFill(a) && IsSignFill(b) then
      (if a == -1 || b == -1 then -1 else 0)
    else
      HalvingShrinks(a);
      HalvingShrinks(b);
      2 * Or(a / 2, b / 2) + (if a % 2 == 1 || b % 2 == 1 then 1 else 0)
  }

  /** Bitwise AND of two non-negative integers (Go's `&` on uint64). */
  function And(a: nat, b: nat): nat
  {
    if a == 0 || b == 0 then 0
    else 2 * And(a / 2, b / 2) + (if a % 2 == 1 && b % 2 == 1 then 1 else 0)
  }

  /** Bitwise XOR of two non-negative integers (Go's `^` on uint64). */
  function Xor(a: nat, b: nat): nat
    decreases a + b
  {
    if a == 0 then b
    else if b == 0 then a
    else 2 * Xor(a / 2, b / 2) + (if a % 2 != b % 2 then 1 else 0)
  }

  /** Number of binary digits of x (0 for 0). */
  function BitLength(x: nat): nat
  {
    if x == 0 then 0 else 1 + BitLength(x / 2)
  }

  /** Some bit of x among positions i, i+1, ..., i+c-1 is set. */
  function AnyBit(x: int, i: nat, c: nat): bool
    decreases c
  {
    if c == 0 then false else Bit(x, i) || AnyBit(x, i + 1, c - 1)
  }

  // ---- helpers for termination -------------------------------------------

  predicate IsSignFill(x: int) { x == 0 || x == -1 }

  function Size(x: int): nat { if x < 0 then -x else x }

  lemma HalvingShrinks(x: int)
    ensures Size(x / 2) <= Size(x)
    ensures !IsSignFill(x) ==> Size(x / 2) < Size(x)
  {
  }

  // ---- facts about single bits -------------------------------------------

  lemma {:induction false} SignFillBits(x: int, i: nat)
    requires IsSignFill(x)
    ensures Bit(x, i) == (x == -1)
  {
    if i > 0 {
      SignFillBits(x / 2, i - 1);
    }
  }

  lemma {:induction false} OrBit(a: int, b: int, i: nat)
    ensures Bit(Or(a, b), i) == (Bit(a, i) || Bit(b, i))
    decreases i
  {
    if IsSignFill(a) && IsSignFill(b) {
      SignFillBits(a, i);
      SignFillBits(b, i);
      SignFillBits(Or(a, b), i);
    } else if i > 0 {
      var low := if a % 2 == 1 || b % 2 == 1 then 1 else 0;
      assert Or(a, b) == 2 * Or(a / 2, b / 2) + low;
      assert Or(a, b) / 2 == Or(a / 2, b / 2);
      OrBit(a / 2, b / 2, i - 1);
    }
  }

  lemma {:induction false} ShrBit(x: int, k: nat, i: nat)
    ensures Bit(Shr(x, k), i) == Bit(x, i + k)
    decreases k
  {
    if k > 0 {
      ShrBit(x / 2, k - 1, i);
      assert Bit(x, i + k) == Bit(x / 2, i + k - 1);
    }
  }

  lemma {:induction false} ShrNonNegative(x: int, k: nat)
    requires x >= 0
    ensures 0 <= Shr(x, k) <= x
  {
    if k > 0 {
      ShrNonNegative(x / 2, k - 1);
    }
  }

  lemma {:induction false} OrNonNegative(a: int, b: int)
    requires a >= 0 && b >= 0
    ensures Or(a, b) >= 0
    decreases Size(a) + Size(b)
  {
    if !(IsSignFill(a) && IsSignFill(b)) {
      HalvingShrinks(a);
      HalvingShrinks(b);
      OrNonNegative(a / 2, b / 2);
    }
  }

  /** A non-negative number is determined by its bits. */
  lemma {:induction false} BitsDetermine(a: nat, b: nat)
    requires forall i: nat :: Bit(a, i) == Bit(b, i)
    ensures a == b
    decreases a + b
  {
    if a != 0 || b != 0 {
      assert Bit(a, 0) == Bit(b, 0);
      forall i: nat ensures Bit(a / 2, i) == Bit(b / 2, i) {
        assert Bit(a, i + 1) == Bit(b, i + 1);
      }
      BitsDetermine(a / 2, b / 2);
    }
  }

  lemma {:induction false} LowOnesBits(n: nat, i: nat)
    ensures Bit(Pow2(n) - 1, i) == (i < n)
  {
    if n == 0 {
      SignFillBits(0, i);
    } else if i > 0 {
      assert (Pow2(n) - 1) / 2 == Pow2(n - 1) - 1;
      LowOnesBits(n - 1, i - 1);
    }
  }

  lemma {:induction false} HighBitsClear(x: nat, n: nat, i: nat)
    requires x < Pow2(n) && n <= i
    ensures !Bit(x, i)
  {
    if n == 0 {
      SignFillBits(0, i);
    } else {
      HighBitsClear(x / 2, n - 1, i - 1);
    }
  }

  lemma {:induction false} BitLengthBounds(x: nat)
    ensures x < Pow2(BitLength(x))
    ensures x > 0 ==> Pow2(BitLength(x) - 1) <= x && Bit(x, BitLength(x) - 1)
  {
    if x > 0 {
      var n := BitLength(x / 2);
      BitLengthBounds(x / 2);
      assert BitLength(x) == n + 1;
      assert Pow2(n + 1) == 2 * Pow2(n);
      if x / 2 > 0 {
        assert Bit(x, n) == Bit(x / 2, n - 1);
      } else {
        assert x == 1 && n == 0;
      }
    }
  }

  lemma {:induction false} BitLengthOfLowOnes(n: nat)
    ensures BitLength(Pow2(n) - 1) == n
  {
    if n > 0 {
      assert (Pow2(n) - 1) / 2 == Pow2(n - 1) - 1;
      BitLengthOfLowOnes(n - 1);
    }
  }

  lemma {:induction false} BitLengthBelow(x: nat, n: nat)
    requires x < Pow2(n)
    ensures BitLength(x) <= n
  {
    if x > 0 {
      BitLengthBelow(x / 2, n - 1);
    }
  }

  // ---- windows of bits ---------------------------------------------------

  lemma {:induction false} AnyBitSplit(x: int, i: nat, c: nat, d: nat)
    ensures AnyBit(x, i, c + d) == (AnyBit(x, i, c) || AnyBit(x, i + c, d))
    decreases c
  {
    if c > 0 {
      AnyBitSplit(x, i + 1, c - 1, d);
    }
  }

  lemma {:induction false} AnyBitHit(x: int, i: nat, c: nat, j: nat)
    requires i <= j < i + c && Bit(x, j)
    ensures AnyBit(x, i, c)
    decreases c
  {
    if j > i {
      AnyBitHit(x, i + 1, c - 1, j);
    }
  }

  lemma {:induction false} AnyBitMiss(x: nat, n: nat, i: nat, c: nat)
    requires x < Pow2(n) && n <= i
    ensures !AnyBit(x, i, c)
    decreases c
  {
    if c > 0 {
      HighBitsClear(x, n, i);
      AnyBitMiss(x, n, i + 1, c - 1);
    }
  }

  /**
   * For x below 2^w, a window of w bits starting at i reaches a set bit of x
   * exactly when i is below x's bit length.
   */
  lemma WindowReachesTop(x: nat, w: nat, i: nat)
    requires x < Pow2(w)
    ensures AnyBit(x, i, w) == (i < BitLength(x))
  {
    var L := BitLength(x);
    BitLengthBelow(x, w);
    BitLengthBounds(x);
    if i < L {
      AnyBitHit(x, i, w, L - 1);
    } else {
      AnyBitMiss(x, L, i, w);
    }
  }

  /**
   * One smearing step `y |= y >> c`: if bit i of y says "some bit of x is set
   * in the c positions from i", then afterwards it says so for 2c positions.
   */
  lemma SmearStep(x: int, y: int, c: nat)
    requires forall i: nat :: Bit(y, i) == AnyBit(x, i, c)
    ensures forall i: nat :: Bit(Or(y, Shr(y, c)), i) == AnyBit(x, i, c + c)
  {
    forall i: nat ensures Bit(Or(y, Shr(y, c)), i) == AnyBit(x, i, c + c) {
      OrBit(y, Shr(y, c), i);
      ShrBit(y, c, i);
      AnyBitSplit(x, i, c, c);
    }
  }

  // ---- AND as a mask -----------------------------------------------------

  lemma {:induction false} AndBelow(a: nat, b: nat)
    ensures And(a, b) <= a && And(a, b) <= b
  {
    if a != 0 && b != 0 {
      AndBelow(a / 2, b / 2);
    }
  }

  lemma ModDouble(h: nat, p: nat)
    requires p >= 1
    ensures h % (2 * p) == 2 * ((h / 2) % p) + h % 2
  {
    var q := (h / 2) / p;
    var r := 2 * ((h / 2) % p) + h % 2;
    assert h / 2 == p * q + (h / 2) % p;
    assert h == (2 * p) * q + r;
    assert 0 <= r < 2 * p;
    DivUnique(h, 2 * p, q, r);
  }

  lemma ModPow2Step(h: nat, k: nat)
    requires k >= 1
    ensures h % Pow2(k) == 2 * ((h / 2) % Pow2(k - 1)) + h % 2
  {
    ModDouble(h, Pow2(k - 1));
  }

  lemma AndLowMaskStep(h: nat, k: nat)
    requires k >= 1 && h != 0
    ensures And(h, Pow2(k) - 1) == 2 * And(h / 2, Pow2(k - 1) - 1) + h % 2
  {
    var m := Pow2(k) - 1;
    assert m / 2 == Pow2(k - 1) - 1 && m % 2 == 1;
  }

  /** ANDing with 2^k - 1 keeps the low k bits: the remainder modulo 2^k. */
  lemma {:induction false} AndLowMask(h: nat, k: nat)
    ensures And(h, Pow2(k) - 1) == h % Pow2(k)
  {
    if k == 0 {
      assert Pow2(k) - 1 == 0;
    } else if h != 0 {
      AndLowMaskStep(h, k);
      AndLowMask(h / 2, k - 1);
      ModPow2Step(h, k);
    }
  }
}
