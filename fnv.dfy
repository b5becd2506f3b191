/**
 * FNV-1a, 64-bit (Fowler-Noll-Vo), as `hash/fnv.New64a` computes it: start
 * from the offset basis and, for every byte, XOR the byte into the state and
 * multiply by the FNV prime modulo 2^64.
 */
module Fnv {
  import opened GoInt
  import opened Bits

  type Byte = b: int | 0 <= b < 256

  const OffsetBasis: Uint64 := 14695981039346656037
  const Prime: Uint64 := 1099511628211

  /** One byte of input: `h ^= b; h *= prime` on a uint64. */
  function Step(h: Uint64, b: Byte): Uint64
  {
    (Xor(h, b) * Prime) % Modulus
  }

  /** Feeding bytes to the hasher (`Write`), starting from state h. */
  function Absorb(h: Uint64, data: seq<Byte>): Uint64
    decreases |data|
  {
    if data == [] then h else Absorb(Step(h, data[0]), data[1..])
  }

  /** `Sum64` after writing `data` to a fresh hasher. */
  function Sum64(data: seq<Byte>): Uint64
  {
    Absorb(OffsetBasis, data)
  }

  /** Writing `a` and then `b` leaves the same state as writing `a + b` at once. */
  lemma {:induction false} AbsorbConcat(h: Uint64, a: seq<Byte>, b: seq<Byte>)
    ensures Absorb(h, a + b) == Absorb(Absorb(h, a), b)
    decreases |a|
  {
    if a != [] {
      assert (a + b)[0] == a[0];
      assert (a + b)[1..] == a[1..] + b;
      AbsorbConcat(Step(h, a[0]), a[1..], b);
    } else {
      assert a + b == b;
    }
  }

  /** The hash of `data + [b]` is one more step from the hash of `data`. */
  lemma Sum64Snoc(data: seq<Byte>, b: Byte)
    ensures Sum64(data + [b]) == Step(Sum64(data), b)
  {
    AbsorbConcat(OffsetBasis, data, [b]);
    assert Absorb(Sum64(data), [b]) == Absorb(Step(Sum64(data), b), []);
  }
}
