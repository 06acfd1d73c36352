/** Bucket arithmetic of the HdrHistogram: which counter a value belongs to. */
module HdrIndex {

  function Pow2(k: nat): (r: nat)
    ensures r > 0
  {
    if k == 0 then 1 else 2 * Pow2(k - 1)
  }

  /** The number of bits of n: 64 - clzll(n) for n > 0. */
  function BitLength(n: nat): nat { if n == 0 then 0 else 1 + BitLength(n / 2) }

  /** Bitwise or. */
  function Or(a: nat, b: nat): nat
    decreases a + b
  {
    if a == 0 && b == 0 then 0 else (if a % 2 == 1 || b % 2 == 1 then 1 else 0) + 2 * Or(a / 2, b / 2)
  }

  lemma {:induction false} BitLengthBounds(n: nat)
    requires n > 0
    ensures BitLength(n) > 0 && Pow2(BitLength(n) - 1) <= n < Pow2(BitLength(n))
  {
    if n > 1 {
      BitLengthBounds(n / 2);
    }
  }

  lemma {:induction false} OrLength(a: nat, b: nat)
    ensures BitLength(Or(a, b)) == if BitLength(a) < BitLength(b) then BitLength(b) else BitLength(a)
    decreases a + b
  {
    if a > 0 || b > 0 {
      OrLength(a / 2, b / 2);
      assert Or(a, b) / 2 == Or(a / 2, b / 2);
      OrPositive(a, b);
    }
  }

  lemma {:induction false} OrPositive(a: nat, b: nat)
    ensures Or(a, b) == 0 <==> a == 0 && b == 0
    decreases a + b
  {
    if a > 0 || b > 0 {
      OrPositive(a / 2, b / 2);
    }
  }

  lemma {:induction false} Pow2Add(j: nat, k: nat)
    ensures Pow2(j + k) == Pow2(j) * Pow2(k)
  {
    if j > 0 {
      Pow2Add(j - 1, k);
      assert 2 * Pow2(j - 1) * Pow2(k) == 2 * (Pow2(j - 1) * Pow2(k));
    }
  }

  lemma {:induction false} Pow2Grows(j: nat, k: nat)
    requires j < k
    ensures 2 * Pow2(j) <= Pow2(k)
  {
    if j < k - 1 {
      Pow2Grows(j, k - 1);
    }
  }

  /** A number of n bits, by its bounds. */
  lemma LengthIs(x: nat, n: nat)
    requires n > 0 && Pow2(n - 1) <= x < Pow2(n)
    ensures BitLength(x) == n
  {
    BitLengthBounds(x);
    if BitLength(x) < n {
      if BitLength(x) < n - 1 {
        Pow2Grows(BitLength(x), n - 1);
      }
    } else if BitLength(x) > n {
      if n < BitLength(x) - 1 {
        Pow2Grows(n, BitLength(x) - 1);
      }
    }
  }

  /** unit: unit_magnitude. half: sub_bucket_half_count_magnitude. buckets: bucket_count. */
  datatype Config = Config(unit: nat, half: nat, buckets: nat)

  function HalfCount(c: Config): nat { Pow2(c.half) }

  function SubCount(c: Config): nat { Pow2(c.half + 1) }

  function Mask(c: Config): nat {
    Product(SubCount(c) - 1, Pow2(c.unit));
    (SubCount(c) - 1) * Pow2(c.unit)
  }

  lemma Product(a: nat, b: nat)
    ensures a * b >= 0
  {
  }

  function CountsLen(c: Config): nat { (c.buckets + 1) * HalfCount(c) }

  /** get_bucket_index. */
  function BucketIndex(c: Config, v: nat): int { BitLength(Or(v, Mask(c))) - c.unit - (c.half + 1) }

  /** The bucket by its bounds: values of the first bucket are below the sub-bucket count; each
      further bucket holds the upper half of a range twice as large. */
  lemma BucketBounds(c: Config, v: nat)
    ensures var b := BucketIndex(c, v);
            b >= 0 && v < Pow2(c.unit + c.half + 1 + b) && (b > 0 ==> Pow2(c.unit + c.half + b) <= v)
  {
    OrLength(v, Mask(c));
    MaskLength(c);
    if v > 0 {
      BitLengthBounds(v);
    }
    var n := c.unit + c.half + 1;
    if BitLength(v) < n {
      Pow2Grows(BitLength(v), n);
    }
  }

  lemma MaskLength(c: Config)
    ensures BitLength(Mask(c)) == c.unit + c.half + 1
  {
    Pow2Add(c.half + 1, c.unit);
    Pow2Add(c.half, c.unit);
    MaskBits(Pow2(c.half), Pow2(c.unit));
    LengthIs(Mask(c), c.unit + c.half + 1);
  }

  lemma MaskBits(h: nat, p: nat)
    requires h > 0 && p > 0
    ensures h * p <= (2 * h - 1) * p < 2 * h * p
  {
    MulNext(2 * h - 1, p);
    MulMonotone(h, 2 * h - 1, p);
  }

  /** get_sub_bucket_index: value >> (bucket_index + unit_magnitude). */
  function SubIndex(c: Config, v: nat, b: nat): nat {
    Quotient(v, Pow2(b + c.unit));
    v / Pow2(b + c.unit)
  }

  lemma Quotient(v: nat, p: nat)
    requires p > 0
    ensures v / p >= 0
  {
  }

  /** counts_index_for. */
  function Index(c: Config, v: nat): int {
    BucketBounds(c, v);
    var b := BucketIndex(c, v);
    (b + 1) * HalfCount(c) + (SubIndex(c, v, b) - HalfCount(c))
  }

  /** counts_index_for of a value of either sign: to clzll a negative value has all 64 bits, and the
      shift of its sub-bucket rounds down. */
  function IndexFor(c: Config, v: int): int
    requires c.half <= 63
  {
    if v >= 0 then Index(c, v)
    else
      var b := 64 - c.unit - (c.half + 1);
      (b + 1) * HalfCount(c) + (v / Pow2(63 - c.half) - HalfCount(c))
  }

  /** size_of_equivalent_value_range, for shifts within an int. */
  function RangeSize(c: Config, v: nat): nat {
    BucketBounds(c, v);
    Pow2(BucketIndex(c, v) + c.unit)
  }

  /** The size of v's range, an int shifted by unit and bucket, fits an int. */
  predicate RangeFits(c: Config, v: nat) { RangeSize(c, v) < Pow2(31) }

  /** lowest_equivalent_value. */
  function Lowest(c: Config, v: nat): nat {
    BucketBounds(c, v);
    SubIndex(c, v, BucketIndex(c, v)) * Pow2(BucketIndex(c, v) + c.unit)
  }

  /** highest_equivalent_value. */
  function Highest(c: Config, v: nat): nat { Lowest(c, v) + RangeSize(c, v) - 1 }

  lemma DivBounds(v: nat, p: nat)
    requires p > 0
    ensures v / p * p <= v < v / p * p + p
  {
  }

  /** A value is between the lowest and the highest of its range. */
  lemma WithinRange(c: Config, v: nat)
    ensures Lowest(c, v) <= v <= Highest(c, v)
  {
    BucketBounds(c, v);
    DivBounds(v, Pow2(BucketIndex(c, v) + c.unit));
  }

  // ----- the ranges in order ------------------------------------------------------------------

  /** The bucket of counter i, and the place in it. */
  function BucketAt(c: Config, i: nat): nat { if i < 2 * HalfCount(c) then 0 else i / HalfCount(c) - 1 }

  function SubAt(c: Config, i: nat): int { i - BucketAt(c, i) * HalfCount(c) }

  /** value_from_index: where the range of counter i starts. */
  function LowAt(c: Config, i: nat): int { SubAt(c, i) * Pow2(BucketAt(c, i) + c.unit) }

  lemma SubAtBounds(c: Config, i: nat)
    ensures 0 <= SubAt(c, i) < SubCount(c) && (BucketAt(c, i) > 0 ==> HalfCount(c) <= SubAt(c, i))
  {
    var h := HalfCount(c);
    if i >= 2 * h {
      DivBounds(i, h);
      assert (i / h - 1) * h == i / h * h - h;
    }
  }

  /** The ranges follow each other without gaps; from the second bucket on they double. */
  lemma NextLow(c: Config, i: nat)
    ensures LowAt(c, i + 1) == LowAt(c, i) + Pow2(BucketAt(c, i) + c.unit)
    ensures LowAt(c, i) < LowAt(c, i + 1)
  {
    var h := HalfCount(c);
    var b, b2 := BucketAt(c, i), BucketAt(c, i + 1);
    var p := Pow2(b + c.unit);
    BucketStep(c, i);
    SubAtBounds(c, i);
    assert Pow2(b + 1 + c.unit) == 2 * p;
    if b2 == b {
      MulNext(i - b * h, p);
    } else {
      Doubling(h, p);
    }
  }

  lemma Doubling(h: nat, p: nat)
    requires h > 0
    ensures h * (2 * p) == (2 * h - 1) * p + p
  {
    MulNext(2 * h - 1, p);
  }

  lemma BucketStep(c: Config, i: nat)
    ensures var b, b2 := BucketAt(c, i), BucketAt(c, i + 1);
            b2 == b || (b2 == b + 1 && SubAt(c, i + 1) == HalfCount(c) && SubAt(c, i) == 2 * HalfCount(c) - 1)
  {
    var h := HalfCount(c);
    if i + 1 >= 2 * h {
      var q := (i + 1) / h;
      DivBounds(i + 1, h);
      TwoAtLeast(i + 1, h);
      MulNext(q - 1, h);
      MulNext(q - 2, h);
      if i + 1 == q * h {
        QuotientIs(i, h, q - 1);
      } else {
        QuotientIs(i, h, q);
      }
    }
  }

  lemma TwoAtLeast(x: nat, h: nat)
    requires h > 0 && 2 * h <= x
    ensures x / h >= 2
  {
    DivBounds(x, h);
    if x / h < 2 {
      MulMonotone(x / h, 1, h);
    }
  }

  lemma QuotientIs(x: nat, h: nat, q: nat)
    requires h > 0 && q * h <= x < q * h + h
    ensures x / h == q
  {
    var d := x / h;
    DivBounds(x, h);
    MulNext(d, h);
    MulNext(q, h);
    if d < q {
      MulMonotone(d + 1, q, h);
    } else if q < d {
      MulMonotone(q + 1, d, h);
    }
  }

  lemma MulNext(a: nat, h: nat)
    ensures (a + 1) * h == a * h + h
  {
  }

  lemma {:induction false} LowMonotone(c: Config, i: nat, j: nat)
    requires i <= j
    ensures LowAt(c, i) <= LowAt(c, j) && (i < j ==> LowAt(c, i) < LowAt(c, j))
    decreases j - i
  {
    if i < j {
      NextLow(c, i);
      LowMonotone(c, i + 1, j);
    }
  }

  /** Counter Index(v) is the one whose range holds v. */
  lemma IndexHolds(c: Config, v: nat)
    ensures Index(c, v) >= 0
    ensures LowAt(c, Index(c, v)) == Lowest(c, v) && Pow2(BucketAt(c, Index(c, v)) + c.unit) == RangeSize(c, v)
    ensures LowAt(c, Index(c, v)) <= v < LowAt(c, Index(c, v) + 1)
  {
    BucketBounds(c, v);
    var b := BucketIndex(c, v);
    var h := HalfCount(c);
    var s := SubIndex(c, v, b);
    SubBounds(c, v);
    assert Index(c, v) == b * h + s by { assert (b + 1) * h == b * h + h; }
    var i := b * h + s;
    if b == 0 {
      assert i < 2 * h;
    } else {
      assert (b + 1) * h == b * h + h && 2 * h <= (b + 1) * h by { MulAtLeast2(b + 1, h); }
      QuotientIs(i, h, b + 1);
    }
    assert BucketAt(c, i) == b && SubAt(c, i) == s;
    NextLow(c, i);
    WithinRange(c, v);
  }

  lemma MulAtLeast2(a: nat, p: nat)
    requires a >= 2
    ensures 2 * p <= a * p
  {
  }

  lemma SubBounds(c: Config, v: nat)
    ensures var b := BucketIndex(c, v);
            b >= 0 && SubIndex(c, v, b) < SubCount(c) && (b > 0 ==> HalfCount(c) <= SubIndex(c, v, b))
  {
    BucketBounds(c, v);
    var b := BucketIndex(c, v);
    var p := Pow2(b + c.unit);
    Pow2Add(c.half + 1, b + c.unit);
    Pow2Add(c.half, b + c.unit);
    assert c.unit + c.half + 1 + b == c.half + 1 + (b + c.unit);
    QuotientBounds(v, p, SubCount(c), HalfCount(c));
  }

  lemma QuotientBounds(v: nat, p: nat, n: nat, h: nat)
    requires p > 0
    ensures v < n * p ==> v / p < n
    ensures h * p <= v ==> h <= v / p
  {
    var q := v / p;
    DivBounds(v, p);
    MulNext(q, p);
    if q >= n {
      MulMonotone(n, q, p);
    }
    if q < h {
      MulMonotone(q + 1, h, p);
    }
  }

  lemma MulMonotone(a: nat, b: nat, p: nat)
    requires a <= b
    ensures a * p <= b * p
  {
  }

  /** The ranges partition the values: a counter's values are exactly those from its lowest up to
      the next counter's. */
  lemma Partition(c: Config, v: nat, i: nat)
    ensures Index(c, v) == i <==> LowAt(c, i) <= v < LowAt(c, i + 1)
  {
    IndexHolds(c, v);
    if LowAt(c, i) <= v < LowAt(c, i + 1) {
      var k := Index(c, v);
      if k < i {
        LowMonotone(c, k + 1, i);
      } else if i < k {
        LowMonotone(c, i + 1, k);
      }
    }
  }

  /** Larger values never have smaller counters. */
  lemma IndexMonotone(c: Config, v: nat, w: nat)
    requires v <= w
    ensures 0 <= Index(c, v) <= Index(c, w)
  {
    IndexHolds(c, v);
    IndexHolds(c, w);
    if Index(c, w) < Index(c, v) {
      LowMonotone(c, Index(c, w) + 1, Index(c, v));
    }
  }

  /** Two values share a counter exactly when each is in the other's equivalent range. */
  lemma SameCounter(c: Config, v: nat, w: nat)
    requires RangeFits(c, v)
    ensures Index(c, v) == Index(c, w) <==> Lowest(c, v) <= w <= Highest(c, v)
  {
    IndexHolds(c, v);
    NextLow(c, Index(c, v));
    Partition(c, w, Index(c, v));
  }

  lemma LowNonnegative(c: Config, i: nat)
    ensures LowAt(c, i) >= 0
  {
    SubAtBounds(c, i);
  }

  /** Every counter has values: its lowest, for one. */
  lemma IndexOnto(c: Config, i: nat)
    ensures LowAt(c, i) >= 0 && Index(c, LowAt(c, i)) == i
  {
    LowNonnegative(c, i);
    NextLow(c, i);
    Partition(c, LowAt(c, i), i);
  }

  /** The counters there are hold exactly the values below the end of the last bucket. */
  lemma Recordable(c: Config, v: nat)
    requires c.buckets > 0
    ensures 0 <= Index(c, v) < CountsLen(c) <==> v < SubCount(c) * Pow2(c.buckets - 1 + c.unit)
  {
    var n := CountsLen(c);
    var h := HalfCount(c);
    assert n == (c.buckets + 1) * h;
    MulAtLeast2(c.buckets + 1, h);
    LastLow(c);
    IndexHolds(c, v);
    if Index(c, v) < n {
      LowMonotone(c, Index(c, v) + 1, n);
    } else {
      LowMonotone(c, n, Index(c, v));
    }
  }

  /** Up to 31 - unit buckets, every value that has a counter has a range that fits. */
  lemma RangesFit(c: Config, v: nat)
    requires c.buckets > 0 && c.unit + c.buckets <= 31 && Index(c, v) < CountsLen(c)
    ensures RangeFits(c, v)
  {
    hide Index, BucketIndex, LowAt, BucketAt, SubAt, Pow2, CountsLen, Lowest;
    Recordable(c, v);
    IndexHolds(c, v);
    BucketBounds(c, v);
    var b := BucketIndex(c, v);
    if b >= c.buckets {
      var k := c.half + 1 + (c.buckets - 1 + c.unit);
      Pow2Add(c.half + 1, c.buckets - 1 + c.unit);
      assert v < Pow2(k);
      if k < c.unit + c.half + b {
        Pow2Grows(k, c.unit + c.half + b);
      }
    } else {
      Pow2Grows(b + c.unit, 31);
    }
  }

  lemma LastLow(c: Config)
    requires c.buckets > 0
    ensures LowAt(c, CountsLen(c)) == SubCount(c) * Pow2(c.buckets - 1 + c.unit)
  {
    var h := HalfCount(c);
    var n := CountsLen(c);
    MulNext(c.buckets, h);
    MulAtLeast2(c.buckets + 1, h);
    QuotientIs(n, h, c.buckets + 1);
    var p := Pow2(c.buckets - 1 + c.unit);
    assert BucketAt(c, n) == c.buckets && SubAt(c, n) == h;
    Doubled(h, p);
  }

  lemma Doubled(h: nat, p: nat)
    ensures h * (2 * p) == 2 * h * p
  {
  }
}
