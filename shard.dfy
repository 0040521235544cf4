/**
 * Key-to-shard routing (internal/services/shard.go). A key is hashed with
 * 64-bit FNV-1, the hash modulo 65536 is its bucket, and the bucket range
 * [0, 65536) is cut into `bucketFactor` contiguous intervals, one per shard;
 * the last interval absorbs the remainder of an uneven division.
 */
module Shard {
  import opened GoStrings

  const BucketNumber: nat := 65536
  const DefaultBucketFactor: nat := 2

  const FnvOffsetBasis: bv64 := 0xcbf2_9ce4_8422_2325
  const FnvPrime: bv64 := 0x0000_0100_0000_01b3

  // ------------------------------------------------------------- hashing

  /**
   * The FNV-1 state after folding `data` into state `h`: for each byte the
   * state is first multiplied by the prime (modulo 2^64) and then XOR-ed with
   * the byte.
   */
  function Fnv1(h: bv64, data: seq<Byte>): bv64
    decreases |data|
  {
    if data == [] then h
    else FnvStep(Fnv1(h, data[..|data| - 1]), data[|data| - 1])
  }

  /** One byte of FNV-1: multiply by the prime modulo 2^64, then XOR the byte in. */
  function FnvStep(h: bv64, b: Byte): bv64
  {
    (h * FnvPrime) ^ (b as bv64)
  }

  /** The 64-bit FNV-1 hash of the bytes of `key`. */
  function KeyHash(key: string): bv64
  {
    Fnv1(FnvOffsetBasis, ToBytes(key))
  }

  /** The bucket of a key. */
  function BucketIndex(key: string): (b: nat)
    ensures b < BucketNumber
  {
    KeyHash(key) as int % BucketNumber
  }

  /** The published FNV-1 test vector for "a" pins down the constants and the multiply-then-XOR order. */
  lemma KeyHashTestVector()
    ensures KeyHash("a") == 0xaf63_bd4c_8601_b7be
  {
    var a := ToBytes("a");
    assert a == [97] && a[..0] == [];
    assert Fnv1(FnvOffsetBasis, a) == FnvStep(FnvOffsetBasis, 97);
  }

  // ----------------------------------------------------------- intervals

  /** A half-open range [from, to) of buckets. */
  datatype Interval = Interval(from: nat, to: nat)

  predicate Contains(iv: Interval, b: nat)
  {
    iv.from <= b < iv.to
  }

  /** The width of every interval but the last. */
  function Unit(f: nat): nat
    requires f >= 1
  {
    BucketNumber / f
  }

  /**
   * The interval table for `f` shards: interval `i` is
   * [i * unit, (i + 1) * unit), except that the last one ends at 65536.
   */
  function Intervals(f: nat): (ivs: seq<Interval>)
    requires f >= 1
    ensures |ivs| == f
  {
    seq(f, i requires 0 <= i < f =>
      if i < f - 1 then Cut(i, Unit(f)) else Interval(i * Unit(f), BucketNumber))
  }

  /** The `i`-th interval of width `unit`. */
  function Cut(i: nat, unit: nat): Interval
  {
    Interval(i * unit, (i + 1) * unit)
  }

  lemma MulMono(a: nat, c: nat, u: nat)
    requires a <= c
    ensures a * u <= c * u
  {
    assert c * u == a * u + (c - a) * u;
  }

  /** The table starts at 0, ends at 65536, and each interval starts where the previous one stops. */
  lemma IntervalsTile(f: nat)
    requires f >= 1
    ensures Intervals(f)[0].from == 0
    ensures Intervals(f)[f - 1].to == BucketNumber
    ensures forall i :: 0 <= i < f - 1 ==> Intervals(f)[i].to == Intervals(f)[i + 1].from
    ensures forall i :: 0 <= i < f ==> Intervals(f)[i].from <= Intervals(f)[i].to
  {
    var ivs, u := Intervals(f), Unit(f);
    forall i | 0 <= i < f
      ensures ivs[i].from <= ivs[i].to
    {
      if i < f - 1 {
        MulMono(i, i + 1, u);
      } else {
        assert u * f <= BucketNumber;
        MulMono(i, f, u);
      }
    }
  }

  /** Every bucket lies in some interval of the table. */
  lemma IntervalsCover(f: nat, b: nat)
    requires f >= 1 && b < BucketNumber
    ensures exists i :: 0 <= i < f && Contains(Intervals(f)[i], b)
  {
    var ivs, u := Intervals(f), Unit(f);
    if u == 0 {
      assert Contains(ivs[f - 1], b);
    } else {
      var k := b / u;
      assert k * u <= b < k * u + u;
      if k < f - 1 {
        assert (k + 1) * u == k * u + u;
        assert Contains(ivs[k], b);
      } else {
        MulMono(f - 1, k, u);
        assert Contains(ivs[f - 1], b);
      }
    }
  }

  /** No bucket lies in two intervals of the table. */
  lemma IntervalsDisjoint(f: nat, i: nat, j: nat, b: nat)
    requires f >= 1 && i < j < f
    ensures !(Contains(Intervals(f)[i], b) && Contains(Intervals(f)[j], b))
  {
    MulMono(i + 1, j, Unit(f));
  }

  /** The table `CreateIntervals(4)` builds. */
  lemma FourShardTable()
    ensures Intervals(4) == [Interval(0, 16384), Interval(16384, 32768), Interval(32768, 49152), Interval(49152, 65536)]
  {
    var ivs := Intervals(4);
    assert Unit(4) == 16384;
    assert ivs[0] == Interval(0, 16384) && ivs[1] == Interval(16384, 32768);
    assert ivs[2] == Interval(32768, 49152) && ivs[3] == Interval(49152, 65536);
  }

  // ----------------------------------------------------------- routing

  /** The first interval from `i` on that contains `b`, or 0 when none does. */
  function FirstContainingFrom(ivs: seq<Interval>, b: nat, i: nat): (r: nat)
    requires i <= |ivs|
    ensures (r == 0 && forall j :: i <= j < |ivs| ==> !Contains(ivs[j], b))
         || (i <= r < |ivs| && Contains(ivs[r], b) && forall j :: i <= j < r ==> !Contains(ivs[j], b))
    decreases |ivs| - i
  {
    if i == |ivs| then 0
    else if Contains(ivs[i], b) then i
    else FirstContainingFrom(ivs, b, i + 1)
  }

  /** What GetBucketByIndex answers: the first interval containing `b`, or 0 when none does. */
  function FirstContaining(ivs: seq<Interval>, b: nat): nat
  {
    FirstContainingFrom(ivs, b, 0)
  }

  /** The shard a key is routed to when there are `f` shards. */
  function ShardOf(f: nat, key: string): nat
    requires f >= 1
  {
    FirstContaining(Intervals(f), BucketIndex(key))
  }

  /** A bucket goes to the one interval that contains it. */
  lemma FirstContainingIsTheContainingInterval(f: nat, b: nat, i: nat)
    requires f >= 1 && i < f && Contains(Intervals(f)[i], b)
    ensures FirstContaining(Intervals(f), b) == i
  {
    var r := FirstContaining(Intervals(f), b);
    if r < i {
      IntervalsDisjoint(f, r, i, b);
    }
  }

  /** Every key goes to a shard in range, and to the one whose interval holds its bucket. */
  lemma ShardOfInRange(f: nat, key: string)
    requires f >= 1
    ensures ShardOf(f, key) < f
    ensures Contains(Intervals(f)[ShardOf(f, key)], BucketIndex(key))
  {
    IntervalsCover(f, BucketIndex(key));
  }

  /** With four shards, bucket 50000 is served by the last shard. */
  lemma FourShardExample()
    ensures FirstContaining(Intervals(4), 50000) == 3
  {
    FourShardTable();
    FirstContainingIsTheContainingInterval(4, 50000, 3);
  }

  // ------------------------------------------------------ the objects

  /** The incremental FNV-1 hasher made by `fnv.New64()`. */
  class Fnv64 {
    var sum: bv64

    constructor ()
      ensures sum == FnvOffsetBasis
    {
      sum := FnvOffsetBasis;
    }

    /** Folds every byte of `data` into the running state. */
    method Write(data: seq<Byte>)
      modifies this
      ensures sum == Fnv1(old(sum), data)
    {
      var i := 0;
      while i < |data|
        invariant 0 <= i <= |data|
        invariant sum == Fnv1(old(sum), data[..i])
      {
        assert data[..i + 1][..i] == data[..i];
        sum := FnvStep(sum, data[i]);
        i := i + 1;
      }
      assert data[..|data|] == data;
    }

    method Sum64() returns (h: bv64)
      ensures h == sum
    {
      h := sum;
    }

    method Reset()
      modifies this
      ensures sum == FnvOffsetBasis
    {
      sum := FnvOffsetBasis;
    }
  }

  /** `CreateIntervals(bucketFactor)`; a factor below 1 makes the source panic, so it is excluded. */
  method CreateIntervals(bucketFactor: nat) returns (result: seq<Interval>)
    requires bucketFactor >= 1
    ensures result == Intervals(bucketFactor)
  {
    result := [];
    var unit := BucketNumber / bucketFactor;
    var from: nat, to: nat := 0, unit;
    var i := 0;
    while i < bucketFactor
      invariant 0 <= i <= bucketFactor
      invariant Interval(from, to) == Cut(i, unit)
      invariant |result| == i
      invariant forall j :: 0 <= j < i ==> result[j] == Cut(j, unit)
    {
      result := result + [Interval(from, to)];
      assert (i + 2) * unit == (i + 1) * unit + unit;
      from := from + unit;
      to := to + unit;
      i := i + 1;
    }
    result := result[bucketFactor - 1 := Interval(result[bucketFactor - 1].from, BucketNumber)];
  }

  /** The router: the interval table, its length and one shared hasher. */
  class ShardService {
    const buckets: seq<Interval>
    const bucketsNum: nat
    const hasher: Fnv64

    /** The table matches the factor and the hasher is at rest between calls. */
    ghost predicate Valid()
      reads hasher
    {
      bucketsNum >= 1 && buckets == Intervals(bucketsNum) && hasher.sum == FnvOffsetBasis
    }

    /** `CreateShardService(bucketFactor)`. */
    constructor (bucketFactor: nat)
      requires bucketFactor >= 1
      ensures Valid() && bucketsNum == bucketFactor && fresh(hasher)
    {
      var b := CreateIntervals(bucketFactor);
      buckets := b;
      bucketsNum := |b|;
      hasher := new Fnv64();
    }

    /** `hash(key)`: write, read the sum, reset; so every call starts from the offset basis. */
    method Hash(key: string) returns (h: bv64)
      requires Valid()
      modifies hasher
      ensures Valid() && h == KeyHash(key)
    {
      hasher.Write(ToBytes(key));
      h := hasher.Sum64();
      hasher.Reset();
    }

    method GetBucketIndex(key: string) returns (b: nat)
      requires Valid()
      modifies hasher
      ensures Valid() && b == BucketIndex(key)
    {
      var h := Hash(key);
      b := h as int % BucketNumber;
    }

    /** A linear scan for the first interval holding the bucket; 0 when none does. */
    method GetBucketByIndex(bucketIndex: nat) returns (r: nat)
      requires Valid()
      ensures r == FirstContaining(buckets, bucketIndex)
    {
      var i := 0;
      while i < bucketsNum
        invariant 0 <= i <= bucketsNum
        invariant FirstContainingFrom(buckets, bucketIndex, i) == FirstContaining(buckets, bucketIndex)
      {
        if buckets[i].from <= bucketIndex < buckets[i].to {
          return i;
        }
        i := i + 1;
      }
      return 0;
    }

    method GetBucketByKey(key: string) returns (r: nat)
      requires Valid()
      modifies hasher
      ensures Valid() && r == ShardOf(bucketsNum, key) && r < bucketsNum
    {
      var b := GetBucketIndex(key);
      r := GetBucketByIndex(b);
      ShardOfInRange(bucketsNum, key);
    }
  }

  /**
   * Hashing does not depend on the hasher's history: a second service gives
   * the same hash, and a second call on the first service gives the same bucket.
   */
  method HashConstancy(key: string) returns (expectedHash: bv64, actualHash: bv64, expectedIndex: nat, actualIndex: nat)
    ensures actualHash == expectedHash && actualIndex == expectedIndex
  {
    var original := new ShardService(4);
    expectedHash := original.Hash(key);
    expectedIndex := original.GetBucketIndex(key);
    var generation := new ShardService(4);
    actualHash := generation.Hash(key);
    actualIndex := original.GetBucketIndex(key);
  }
}
