/**
 * The sharded call-deduplication coordinator of
 * demos/singleflight/shardcalls/main.go: sizing the shard array to a power
 * of two, deriving the mask, and routing a key to the shard whose group will
 * deduplicate its calls. The groups themselves (`singleflight.Group`) are
 * not part of this model: a shard is only a slot.
 */
module ShardCalls {
  import opened GoInt
  import opened Bits
  import Fnv

  /** A zero-valued `singleflight.Group`, as `make` creates it. */
  datatype Group = Group

  datatype ShardCalls = ShardCalls(shards: seq<Group>, shardMask: Uint64)

  /** The run-time panics the sizing and routing code can raise. */
  datatype Panic =
    | MakeSliceLenOutOfRange  // `make` with a negative length
    | IndexOutOfRange         // `sc.shards[shard]` past the end

  datatype Outcome<T> = Ok(value: T) | Panicked(panic: Panic)

  /** The five `v |= v >> k` steps of nextPowerOfTwo. */
  function Smear(x: int): int
  {
    var v1 := Or(x, Shr(x, 1));
    var v2 := Or(v1, Shr(v1, 2));
    var v3 := Or(v2, Shr(v2, 4));
    var v4 := Or(v3, Shr(v3, 8));
    Or(v4, Shr(v4, 16))
  }

  /** `nextPowerOfTwo` on a Go `int`: decrement, smear, increment, each wrapping. */
  function NextPowerOfTwo(v: Int64): Int64
  {
    Wrap(Smear(Wrap(v - 1)) + 1)
  }

  /** `NewShardCalls`: round the count, allocate the shards, derive the mask. */
  function NewShardCalls(shardCount: Int64): (r: Outcome<ShardCalls>)
    ensures r.Ok? <==> NextPowerOfTwo(shardCount) >= 0
    ensures r.Ok? ==> |r.value.shards| == NextPowerOfTwo(shardCount)
    ensures r.Ok? ==> r.value.shardMask == ToUint64(|r.value.shards| - 1)
  {
    var n := NextPowerOfTwo(shardCount);
    if n < 0 then Panicked(MakeSliceLenOutOfRange)
    else Ok(ShardCalls(seq(n, _ => Group), ToUint64(n - 1)))
  }

  /** `getShard`: the FNV-1a hash of the key's bytes ANDed with the mask. */
  function GetShard(sc: ShardCalls, key: seq<Fnv.Byte>): (r: Uint64)
    ensures r <= sc.shardMask
  {
    AndBelow(Fnv.Sum64(key), sc.shardMask);
    And(Fnv.Sum64(key), sc.shardMask)
  }

  /** The routing step of `Do`: the index of the shard whose group runs the call. */
  function RouteDo(sc: ShardCalls, key: seq<Fnv.Byte>): (r: Outcome<nat>)
    ensures r.Ok? <==> GetShard(sc, key) < |sc.shards|
    ensures r.Ok? ==> r.value < |sc.shards| && r.value == GetShard(sc, key)
  {
    var shard := GetShard(sc, key);
    if shard < |sc.shards| then Ok(shard) else Panicked(IndexOutOfRange)
  }

  /** Size and mask agree: there is a shard and the mask is the last index. */
  predicate MaskMatchesSize(sc: ShardCalls)
  {
    |sc.shards| >= 1 && sc.shardMask == |sc.shards| - 1
  }

  // ---- rounding ----------------------------------------------------------

  lemma SmearNonNegative(x: int)
    requires x >= 0
    ensures Smear(x) >= 0
  {
    var v1 := Or(x, Shr(x, 1));
    ShrNonNegative(x, 1);
    OrNonNegative(x, Shr(x, 1));
    var v2 := Or(v1, Shr(v1, 2));
    ShrNonNegative(v1, 2);
    OrNonNegative(v1, Shr(v1, 2));
    var v3 := Or(v2, Shr(v2, 4));
    ShrNonNegative(v2, 4);
    OrNonNegative(v2, Shr(v2, 4));
    var v4 := Or(v3, Shr(v3, 8));
    ShrNonNegative(v3, 8);
    OrNonNegative(v3, Shr(v3, 8));
    ShrNonNegative(v4, 16);
    OrNonNegative(v4, Shr(v4, 16));
  }

  /** Bit i of the smear of x is set iff some bit of x in positions i..i+31 is. */
  lemma SmearBits(x: int)
    ensures forall i: nat :: Bit(Smear(x), i) == AnyBit(x, i, 32)
  {
    var v1 := Or(x, Shr(x, 1));
    var v2 := Or(v1, Shr(v1, 2));
    var v3 := Or(v2, Shr(v2, 4));
    var v4 := Or(v3, Shr(v3, 8));
    forall i: nat ensures Bit(x, i) == AnyBit(x, i, 1) {
      assert AnyBit(x, i, 1) == (Bit(x, i) || AnyBit(x, i + 1, 0));
    }
    SmearStep(x, x, 1);
    SmearStep(x, v1, 2);
    SmearStep(x, v2, 4);
    SmearStep(x, v3, 8);
    SmearStep(x, v4, 16);
  }

  /** For x below 2^32 the smear sets every bit below x's highest set bit. */
  lemma SmearFillsLowBits(x: int)
    requires 0 <= x < 0x1_0000_0000
    ensures Smear(x) == Pow2(BitLength(x)) - 1
  {
    Pow2Of32();
    var L := BitLength(x);
    SmearBits(x);
    forall i: nat ensures Bit(Smear(x), i) == Bit(Pow2(L) - 1, i) {
      LowOnesBits(L, i);
      WindowReachesTop(x, 32, i);
    }
    SmearNonNegative(x);
    BitsDetermine(Smear(x), Pow2(L) - 1);
  }

  /**
   * For 1 <= v <= 2^32, nextPowerOfTwo(v) is the power of two 2^k with
   * k = bit length of v - 1, and it is the least power of two at least v:
   * v <= p < 2v.
   */
  lemma NextPowerOfTwoRounds(v: Int64)
    requires 1 <= v <= 0x1_0000_0000
    ensures NextPowerOfTwo(v) == Pow2(BitLength(v - 1))
    ensures v <= NextPowerOfTwo(v) < 2 * v
  {
    var x := v - 1;
    var L := BitLength(x);
    Pow2Of32();
    SmearFillsLowBits(x);
    BitLengthBelow(x, 32);
    Pow2Monotone(L, 32);
    BitLengthBounds(x);
    if x > 0 {
      assert Pow2(L) == 2 * Pow2(L - 1);
    }
  }

  /** A power of two up to 2^32 is left as it is; so rounding is idempotent. */
  lemma NextPowerOfTwoFixesPowers(v: Int64, k: nat)
    requires v == Pow2(k) && v <= 0x1_0000_0000
    ensures NextPowerOfTwo(v) == v
  {
    BitLengthOfLowOnes(k);
    NextPowerOfTwoRounds(v);
  }

  lemma NextPowerOfTwoIdempotent(v: Int64)
    requires 1 <= v <= 0x1_0000_0000
    ensures NextPowerOfTwo(NextPowerOfTwo(v)) == NextPowerOfTwo(v)
  {
    NextPowerOfTwoRounds(v);
    Pow2Of32();
    BitLengthBelow(v - 1, 32);
    Pow2Monotone(BitLength(v - 1), 32);
    NextPowerOfTwoFixesPowers(NextPowerOfTwo(v), BitLength(v - 1));
  }

  /** The decrement turns 0 into -1, which the smear keeps, so 0 rounds to 0. */
  lemma NextPowerOfTwoOfZero()
    ensures NextPowerOfTwo(0) == 0
  {
    ShrMinusOne(1);
    ShrMinusOne(2);
    ShrMinusOne(4);
    ShrMinusOne(8);
    ShrMinusOne(16);
    assert Or(-1, -1) == -1;
  }

  /** A negative count such as -1 also rounds to 0: -2 smears to -1. */
  lemma NextPowerOfTwoOfMinusOne()
    ensures NextPowerOfTwo(-1) == 0
  {
    assert Shr(-2, 1) == -1;
    assert Or(-2, -1) == 2 * Or(-1, -1) + 1;
    assert Or(-1, -1) == -1;
    ShrMinusOne(2);
    ShrMinusOne(4);
    ShrMinusOne(8);
    ShrMinusOne(16);
  }

  /**
   * Rounding is not monotone at the top of the range: the largest int64
   * smears to 2^63 - 1, the increment wraps, and the result is negative, so
   * `make` panics.
   */
  lemma NextPowerOfTwoOfMaxInt()
    ensures NextPowerOfTwo(MaxInt64) == MinInt64
    ensures NewShardCalls(MaxInt64) == Panicked(MakeSliceLenOutOfRange)
  {
    var n := 63;
    Pow2Of63(n);
    SmearBelowTop(n);
    assert Wrap(MaxInt64 - 1) == Pow2(n) - 2;
    assert Wrap(Pow2(n)) == MinInt64;
  }

  /**
   * The smallest int64 decrements to the largest, which the smear keeps, and
   * the increment wraps back: a negative length, so `make` panics.
   */
  lemma NextPowerOfTwoOfMinInt()
    ensures NextPowerOfTwo(MinInt64) == MinInt64
    ensures NewShardCalls(MinInt64) == Panicked(MakeSliceLenOutOfRange)
  {
    var n := 63;
    Pow2Of63(n);
    SmearKeepsLowOnes(n);
    assert Wrap(MinInt64 - 1) == Pow2(n) - 1;
    assert Wrap(Pow2(n)) == MinInt64;
  }

  /** A run of n low ones is already smeared. */
  lemma SmearKeepsLowOnes(n: nat)
    ensures Smear(Pow2(n) - 1) == Pow2(n) - 1
  {
    var x := Pow2(n) - 1;
    SmearBits(x);
    forall i: nat ensures Bit(Smear(x), i) == Bit(x, i) {
      LowOnesBits(n, i);
      if i < n {
        AnyBitHit(x, i, 32, i);
      } else {
        AnyBitMiss(x, n, i, 32);
      }
    }
    SmearNonNegative(x);
    BitsDetermine(Smear(x), x);
  }

  lemma Pow2Of63(n: nat)
    requires n == 63
    ensures Pow2(n) == 0x8000_0000_0000_0000
  {
    var a, b := 31, 32;
    Pow2Of32();
    assert Pow2(b) == 2 * Pow2(a);
    Pow2Sum(a, b);
  }

  /** 2^n - 2 has bits 1 to n - 1 set, which the smear extends down to bit 0. */
  lemma SmearBelowTop(n: nat)
    requires n >= 2
    ensures Smear(Pow2(n) - 2) == Pow2(n) - 1
  {
    var x := Pow2(n) - 2;
    assert x >= 0 by {
      assert Pow2(n) == 2 * Pow2(n - 1);
    }
    SmearBits(x);
    forall i: nat ensures Bit(Smear(x), i) == Bit(Pow2(n) - 1, i) {
      LowOnesBits(n, i);
      WindowBelowTop(n, i);
    }
    SmearNonNegative(x);
    BitsDetermine(Smear(x), Pow2(n) - 1);
  }

  lemma WindowBelowTop(n: nat, i: nat)
    requires n >= 2
    ensures AnyBit(Pow2(n) - 2, i, 32) == (i < n)
  {
    var y := Pow2(n - 1) - 1;
    var x := 2 * y;
    assert x == Pow2(n) - 2;
    if i < n {
      var j := if i == 0 then 1 else i;
      LowOnesBits(n - 1, j - 1);
      assert Bit(x, j) == Bit(y, j - 1);
      AnyBitHit(x, i, 32, j);
    } else {
      AnyBitMiss(x, n, i, 32);
    }
  }

  lemma {:induction false} ShrMinusOne(k: nat)
    ensures Shr(-1, k) == -1
  {
    if k > 0 {
      ShrMinusOne(k - 1);
    }
  }

  /** 1, 4 and 8 are powers of two already. */
  lemma NextPowerOfTwoExamples()
    ensures NextPowerOfTwo(1) == 1
    ensures NextPowerOfTwo(4) == 4
    ensures NextPowerOfTwo(8) == 8
  {
    assert Pow2(0) == 1 && Pow2(2) == 4 && Pow2(3) == 8;
    NextPowerOfTwoFixesPowers(1, 0);
    NextPowerOfTwoFixesPowers(4, 2);
    NextPowerOfTwoFixesPowers(8, 3);
  }

  /** 5 is rounded up to 8. */
  lemma NextPowerOfTwoOfFive()
    ensures NextPowerOfTwo(5) == 8
  {
    assert BitLength(4) == 3 && Pow2(3) == 8;
    NextPowerOfTwoRounds(5);
  }

  // ---- sizing ------------------------------------------------------------

  /** For 1 <= n <= 2^32 the coordinator has 2^k >= n shards and mask 2^k - 1. */
  lemma NewShardCallsSized(n: Int64)
    requires 1 <= n <= 0x1_0000_0000
    ensures NewShardCalls(n).Ok?
    ensures |NewShardCalls(n).value.shards| == Pow2(BitLength(n - 1))
    ensures n <= |NewShardCalls(n).value.shards| < 2 * n
    ensures MaskMatchesSize(NewShardCalls(n).value)
  {
    NextPowerOfTwoRounds(n);
  }

  /** `NewShardCalls(0)` builds no shards and the mask uint64(-1) = 2^64 - 1. */
  lemma NewShardCallsZero()
    ensures NewShardCalls(0) == Ok(ShardCalls([], Modulus - 1))
  {
    NextPowerOfTwoOfZero();
  }

  /** A negative count builds no shards either, rather than failing. */
  lemma NewShardCallsMinusOne()
    ensures NewShardCalls(-1) == Ok(ShardCalls([], Modulus - 1))
  {
    NextPowerOfTwoOfMinusOne();
  }

  /** The value used by the demo's `main`: four shards, mask 3. */
  lemma NewShardCallsFour()
    ensures NewShardCalls(4).Ok?
    ensures |NewShardCalls(4).value.shards| == 4 && NewShardCalls(4).value.shardMask == 3
  {
    assert Pow2(2) == 4;
    NextPowerOfTwoFixesPowers(4, 2);
  }

  // ---- routing -----------------------------------------------------------

  /** With size and mask in agreement, `Do` never indexes past the shards. */
  lemma RouteInBounds(sc: ShardCalls, key: seq<Fnv.Byte>)
    requires MaskMatchesSize(sc)
    ensures RouteDo(sc, key).Ok?
    ensures RouteDo(sc, key).value < |sc.shards|
  {
  }

  /** With a power-of-two size, ANDing with the mask is reduction modulo the size. */
  lemma RouteIsModulo(sc: ShardCalls, key: seq<Fnv.Byte>, k: nat)
    requires |sc.shards| == Pow2(k) && sc.shardMask == Pow2(k) - 1
    ensures RouteDo(sc, key) == Ok(Fnv.Sum64(key) % |sc.shards|)
  {
    AndLowMask(Fnv.Sum64(key), k);
  }

  /** End to end: a coordinator built for 1..2^32 shards routes every key to hash mod size. */
  lemma NewShardCallsRoutes(n: Int64, key: seq<Fnv.Byte>)
    requires 1 <= n <= 0x1_0000_0000
    ensures NewShardCalls(n).Ok? && NextPowerOfTwo(n) >= n
    ensures RouteDo(NewShardCalls(n).value, key) == Ok(Fnv.Sum64(key) % NextPowerOfTwo(n))
  {
    NewShardCallsSized(n);
    RouteIsModulo(NewShardCalls(n).value, key, BitLength(n - 1));
  }

  /** Routing looks only at the key's hash: equal keys, or colliding keys, share a shard. */
  lemma RouteDependsOnlyOnHash(sc: ShardCalls, k1: seq<Fnv.Byte>, k2: seq<Fnv.Byte>)
    requires Fnv.Sum64(k1) == Fnv.Sum64(k2)
    ensures RouteDo(sc, k1) == RouteDo(sc, k2)
  {
  }

  /** A coordinator built with 0 shards panics on every `Do`. */
  lemma ZeroShardsAlwaysPanic(key: seq<Fnv.Byte>)
    ensures NewShardCalls(0).Ok?
    ensures RouteDo(NewShardCalls(0).value, key) == Panicked(IndexOutOfRange)
  {
    NewShardCallsZero();
  }
}
