/** The HdrHistogram: set-up, recording, iteration, percentiles and merging. */
module HdrHistogram {
  import opened HdrIndex
  import opened HdrCounts

  function Pow10(k: nat): (r: nat)
    ensures r > 0
  {
    if k == 0 then 1 else 10 * Pow10(k - 1)
  }

  /** The smallest magnitude whose power of two is at least n: ceil(log(n) / log(2)). */
  method LogCeiling(n: nat) returns (m: nat)
    requires n > 0
    ensures n <= Pow2(m) && (m > 0 ==> Pow2(m - 1) < n)
  {
    m := 0;
    while Pow2(m) < n
      invariant m > 0 ==> Pow2(m - 1) < n
      decreases n - Pow2(m)
    {
      m := m + 1;
    }
  }

  /** floor(log(n) / log(2)). */
  method LogFloor(n: nat) returns (m: nat)
    requires n > 0
    ensures Pow2(m) <= n < Pow2(m + 1)
  {
    m := 0;
    while Pow2(m + 1) <= n
      invariant Pow2(m) <= n
      decreases n - Pow2(m)
    {
      m := m + 1;
    }
  }

  /** The loop of hdr_init: buckets are added until the highest value is covered. */
  method BucketsNeeded(mask: nat, highest: nat) returns (buckets: nat)
    requires mask > 0
    ensures buckets > 0 && highest <= mask * Pow2(buckets - 1) && (buckets > 1 ==> mask * Pow2(buckets - 2) < highest)
  {
    var trackable := mask;
    buckets := 1;
    while trackable < highest
      invariant buckets > 0 && trackable == mask * Pow2(buckets - 1) && trackable > 0
      invariant buckets > 1 ==> mask * Pow2(buckets - 2) < highest
      decreases highest - trackable
    {
      Twice(mask, Pow2(buckets - 1));
      trackable := trackable * 2;
      buckets := buckets + 1;
    }
  }

  lemma Twice(a: nat, p: nat)
    ensures a * (2 * p) == a * p * 2
  {
  }

  /** Every value up to the highest trackable one has a counter. */
  lemma Covers(c: Config, highest: nat, v: nat)
    requires c.buckets > 0 && highest <= Mask(c) * Pow2(c.buckets - 1) && v <= highest
    ensures 0 <= Index(c, v) < CountsLen(c)
  {
    var p, q := Pow2(c.unit), Pow2(c.buckets - 1);
    Pow2Add(c.unit, c.buckets - 1);
    assert c.unit + (c.buckets - 1) == c.buckets - 1 + c.unit;
    Regroup(SubCount(c), p, q);
    Recordable(c, v);
  }

  lemma Regroup(s: nat, p: nat, q: nat)
    requires s > 0 && p > 0 && q > 0
    ensures (s - 1) * p * q < s * (p * q)
  {
    assert (s - 1) * p * q == (s - 1) * (p * q);
    assert s * (p * q) == (s - 1) * (p * q) + p * q;
    MulPositive(p, q);
  }

  lemma MulPositive(p: nat, q: nat)
    requires p > 0 && q > 0
    ensures p * q > 0
  {
  }

  /** The values that hdr_record_corrected_value adds: value - interval, and so on down to interval. */
  function Missed(value: int, interval: int): seq<nat> {
    if interval <= 0 || value <= interval then [] else MissedFrom(value - interval, interval)
  }

  function MissedFrom(v: nat, interval: nat): seq<nat>
    requires interval > 0
  {
    if v < interval then [] else [v] + MissedFrom(v - interval, interval)
  }

  /** The missed values are one interval apart, down to the last one that is no smaller than it. */
  lemma {:induction false} MissedAre(v: nat, interval: nat)
    requires interval > 0
    ensures |MissedFrom(v, interval)| == v / interval
    ensures forall k: nat {:trigger MissedFrom(v, interval)[k]} :: k < |MissedFrom(v, interval)| ==>
              MissedFrom(v, interval)[k] == v - k * interval && v - k * interval >= interval
  {
    if v >= interval {
      MissedAre(v - interval, interval);
      DivLess(v, interval);
      var m, rest := MissedFrom(v, interval), MissedFrom(v - interval, interval);
      forall k: nat | k < |m| ensures m[k] == v - k * interval && v - k * interval >= interval {
        if k > 0 {
          assert m[k] == rest[k - 1];
          MulNext(k - 1, interval);
        }
      }
    } else {
      Below1(v, interval);
    }
  }

  lemma DivLess(v: nat, n: nat)
    requires 0 < n <= v
    ensures v / n == (v - n) / n + 1
  {
    var q := (v - n) / n;
    DivBounds(v - n, n);
    MulNext(q, n);
    QuotientIs(v, n, q + 1);
  }

  lemma Below1(v: nat, n: nat)
    requires v < n
    ensures v / n == 0
  {
  }

  /** r is the rank of a percentile: that many per cent of the values, rounded to the nearest number
      of values, but at least one. */
  predicate Nearest(percentile: real, total: nat, r: nat) {
    var share := (if percentile < 100.0 then percentile else 100.0) * total as real / 100.0;
    r >= 1 && (r == 1 || r as real <= share + 0.5) && share + 0.5 < r as real + 1.0
  }

  lemma NearestUnique(percentile: real, total: nat, r: nat, q: nat)
    requires Nearest(percentile, total, r) && Nearest(percentile, total, q)
    ensures r == q
  {
  }

  lemma NearestIs(percentile: real, total: nat)
    ensures Nearest(percentile, total, RankFor(percentile, total))
  {
    var requested := if percentile < 100.0 then percentile else 100.0;
    Share(requested, total as real);
  }

  lemma Share(p: real, t: real)
    ensures p / 100.0 * t == p * t / 100.0
  {
  }

  /** The rank as hdr_value_at_percentile computes it. */
  function RankFor(percentile: real, total: nat): nat {
    var requested := if percentile < 100.0 then percentile else 100.0;
    var rank := (requested / 100.0 * total as real + 0.5).Floor;
    if rank > 1 then rank else 1
  }

  lemma RankBounds(percentile: real, total: nat)
    ensures 0 < RankFor(percentile, total) && (total > 0 ==> RankFor(percentile, total) <= total)
  {
    var requested := if percentile < 100.0 then percentile else 100.0;
    AtMostAll(requested / 100.0, total as real);
  }

  lemma AtMostAll(p: real, t: real)
    requires p <= 1.0 && t >= 0.0
    ensures p * t <= t
  {
  }

  function LowNat(c: Config, i: nat): nat {
    LowNonnegative(c, i);
    LowAt(c, i)
  }

  lemma LowIs(c: Config, i: nat)
    ensures LowNat(c, i) == LowAt(c, i)
  {
  }

  /** A value of type int64_t. */
  predicate Int64(v: int) { -(Pow2(63) as int) <= v < Pow2(63) }

  /** The buckets reach so far that the counters of negative values are among them. */
  predicate NegativesFit(c: Config) { c.unit + c.half <= 62 <= c.buckets + c.unit + c.half }

  /** The value that a recorded value is counted as: itself, or for a negative one the lowest value
      of the counter it falls into. */
  function CountedAs(c: Config, v: int): nat
    requires c.half <= 63 && IndexFor(c, v) >= 0
  {
    if v >= 0 then v else LowNat(c, IndexFor(c, v))
  }

  class Histogram {
    const c: Config
    const counts: array<nat>
    var total: nat
    ghost var values: seq<nat>

    ghost predicate Valid()
      reads this, counts
    {
      c.half <= 63 && Agrees(c, values, counts[..]) && total == |values|
    }

    constructor (c: Config)
      requires c.buckets > 0 && c.half <= 63
      ensures Valid() && values == [] && this.c == c && fresh(counts)
    {
      this.c := c;
      counts := new nat[CountsLen(c)](_ => 0);
      total := 0;
      values := [];
    }

    /** hdr_record_values: count times the value, unless it is out of range. A negative value is
        either out of range or counted like the values of the counter it falls into. */
    method RecordValues(value: int, count: nat) returns (ok: bool)
      requires Valid()
      modifies this, counts
      ensures Valid() && ok == (0 <= IndexFor(c, value) < counts.Length)
      ensures value < 0 && Int64(value) ==> ok == NegativesFit(c)
      ensures values == if ok then old(values) + Repeat(CountedAs(c, value), count) else old(values)
      ensures counts[..] == if ok
                then old(counts[..])[IndexFor(c, value) := old(counts[..])[IndexFor(c, value)] + count]
                            else old(counts[..])
    {
      var i := IndexFor(c, value);
      if value < 0 && Int64(value) {
        NegativeRange(c, value);
      }
      if i < 0 || counts.Length <= i {
        return false;
      }
      ghost var v := CountedAs(c, value);
      CountedThere(c, value);
      RecordAgrees(c, values, counts[..], v, count, i);
      CountMore(c, values, v, count, i);
      ghost var before := counts[..];
      counts[i] := counts[i] + count;
      total := total + count;
      values := values + Repeat(v, count);
      assert counts[..] == before[i := before[i] + count];
      ok := true;
    }

    /** hdr_record_value. */
    method RecordValue(value: int) returns (ok: bool)
      requires Valid()
      modifies this, counts
      ensures Valid() && ok == (0 <= IndexFor(c, value) < counts.Length)
      ensures value < 0 && Int64(value) ==> ok == NegativesFit(c)
      ensures values == if ok then old(values) + [CountedAs(c, value)] else old(values)
    {
      ok := RecordValues(value, 1);
      if ok {
        assert Repeat(CountedAs(c, value), 1) == [CountedAs(c, value)];
      }
    }

    /** hdr_record_corrected_value: the values that a stalled measurement has missed, too. */
    method RecordCorrectedValue(value: int, interval: int) returns (ok: bool)
      requires Valid()
      modifies this, counts
      ensures Valid() && ok == (0 <= IndexFor(c, value) < counts.Length)
      ensures value < 0 && Int64(value) ==> ok == NegativesFit(c)
      ensures values == if !ok then old(values) else old(values) + [CountedAs(c, value)] + Missed(value, interval)
    {
      hide Index, Agrees, IndexFor, CountedAs, Int64, NegativesFit, Pow2;
      ok := RecordValue(value);
      if !ok {
        return;
      }
      if interval <= 0 || value <= interval {
        assert old(values) + [CountedAs(c, value)] + [] == old(values) + [CountedAs(c, value)];
        return;
      }
      NotNegative(c, value);
      var missing := value - interval;
      ghost var done: seq<nat> := [];
      while missing >= interval
        invariant Valid() && ok && missing < value && (missing < interval || missing > 0)
        invariant missing >= 0 && values == old(values) + [value as nat] + done
                  && done + MissedFrom(missing, interval) == Missed(value, interval)
        decreases missing
      {
        IndexMonotone(c, missing, value);
        NotNegative(c, missing);
        var recorded := RecordValue(missing);
        if !recorded {
          return false;
        }
        done := done + [missing];
        missing := missing - interval;
      }
    }

    /** hdr_reset. */
    method Reset()
      requires Valid()
      modifies this, counts
      ensures Valid() && values == []
    {
      total := 0;
      forall i | 0 <= i < counts.Length {
        counts[i] := 0;
      }
      values := [];
    }

    /** hdr_value_at_percentile: the highest value equivalent to the element at the rounded rank. */
    method ValueAtPercentile(percentile: real) returns (value: nat)
      requires Valid()
      ensures total == 0 ==> value == 0
      ensures total > 0 ==> exists r: nat :: r <= total && Nearest(percentile, total, r)
      ensures total > 0 ==>
                forall r: nat, e: nat :: Nearest(percentile, total, r) && IsRank(values, e, r) && RangeFits(c, e) ==>
                  value == Highest(c, e)
    {
      RankBounds(percentile, total);
      NearestIs(percentile, total);
      var rank := RankFor(percentile, total);
      var sum := 0;
      var it := new Iter(this);
      while true
        invariant it.Valid() && it.h == this && sum == it.countTo && (it.next > 0 ==> sum < rank)
        invariant it.next == 0 ==> sum == 0
        decreases counts.Length - it.next
      {
        var more := it.Next();
        if !more {
          break;
        }
        sum := sum + it.countAt;
        if sum >= rank {
          forall r: nat, e: nat | Nearest(percentile, total, r) && IsRank(values, e, r)
            ensures Highest(c, it.value) == Highest(c, e) {
            NearestUnique(percentile, total, r, rank);
            RankCounter(c, values, counts[..], rank, e, it.next - 1);
            IndexOnto(c, it.next - 1);
            SameRange(c, e, it.value);
          }
          return Highest(c, it.value);
        }
      }
      value := 0;
    }

    /** hdr_max: the lowest value equivalent to the greatest element. */
    method Max() returns (value: nat)
      requires Valid()
      ensures values == [] ==> value == Lowest(c, 0)
      ensures forall e <- values :: (forall v <- values :: v <= e) && RangeFits(c, e) ==> value == Lowest(c, e)
    {
      hide Index, Agrees, Lowest, Highest, BucketAt, SubAt, LowAt, Prefix, LowNat;
      var max := 0;
      ghost var last := -1;
      var it := new Iter(this);
      while true
        invariant it.Valid() && it.h == this && -1 <= last < it.next
        invariant if last < 0 then max == 0 else max == Highest(c, LowNat(c, last)) && counts[last] > 0
        invariant (last >= 0 ==> it.countTo > 0) && forall j :: last < j < it.next ==> counts[j] == 0
        decreases counts.Length - it.next
      {
        var more := it.Next();
        if !more {
          break;
        }
        if it.countAt != 0 {
          max := it.highest;
          last := it.next - 1;
          LowIs(c, last);
        }
      }
      value := Lowest(c, max);
      PrefixRest(c, values, counts[..], it.next);
      forall e | e in values && (forall v <- values :: v <= e) && RangeFits(c, e) ensures value == Lowest(c, e) {
        MaxCounter(c, values, counts[..], it.next, last, e);
        MaxLow(c, last, e);
      }
    }

    /** hdr_min: the lowest value equivalent to the least element, or 0 when there is none. */
    method Min() returns (value: nat)
      requires Valid()
      ensures values == [] ==> value == 0
      ensures forall e <- values :: (forall v <- values :: e <= v) ==> value == Lowest(c, e)
    {
      hide Index, Agrees, Lowest, Highest, BucketAt, SubAt, LowAt, Prefix, LowNat;
      value := 0;
      var it := new Iter(this);
      while true
        invariant it.Valid() && it.h == this && value == 0 && it.countTo == 0
        decreases counts.Length - it.next
      {
        var more := it.Next();
        if !more {
          break;
        }
        if it.countTo != 0 {
          value := it.value;
          forall e | e in values && (forall v <- values :: e <= v) ensures value == Lowest(c, e) {
            MinCounter(c, values, counts[..], it.next - 1, e);
            MinLow(c, it.next - 1, e, it.value);
          }
          return;
        }
      }
      assert values == [];
    }
  }

  /** The iterator over all counters. next: how many it has visited. */
  class Iter {
    const h: Histogram
    var bucket: int
    var sub: int
    var countAt: nat
    var countTo: nat
    var value: nat
    var highest: nat
    ghost var next: nat

    ghost predicate Valid()
      reads this, h, h.counts
    {
      && h.Valid() && next <= h.counts.Length && countTo == Prefix(h.counts[..], next)
      && if next == 0 then bucket == 0 && sub == -1
         else bucket == BucketAt(h.c, next - 1) && sub == SubAt(h.c, next - 1) && value == LowAt(h.c, next - 1)
              && countAt == h.counts[next - 1] && highest == Highest(h.c, value)
    }

    /** hdr_iter_init. */
    constructor (h: Histogram)
      requires h.Valid()
      ensures Valid() && next == 0 && this.h == h && countTo == 0
    {
      this.h := h;
      bucket, sub, countAt, countTo, value, highest, next := 0, -1, 0, 0, 0, 0, 0;
    }

    /** hdr_iter_next: the next counter, while there are counts left. It never leaves the buckets. */
    method Next() returns (more: bool)
      requires Valid()
      modifies this
      ensures Valid() && more == (old(countTo) < h.total)
      ensures if more then next == old(next) + 1 && next <= h.counts.Length
                else next == old(next) && countTo == old(countTo) && value == old(value)
      ensures more ==>
                countTo == old(countTo) + h.counts[next - 1] && countAt == h.counts[next - 1]
                    && value == LowAt(h.c, next - 1)
    {
      hide Agrees, Index, Lowest, BucketAt, SubAt, Highest;
      if countTo >= h.total {
        return false;
      }
      ghost var n := next;
      PrefixIsAll(h.c, h.values, h.counts[..]);
      NextPlace(h.c, n);
      sub := sub + 1;
      if sub >= SubCount(h.c) {
        sub := HalfCount(h.c);
        bucket := bucket + 1;
      }
      assert bucket < h.c.buckets;
      var i := (bucket + 1) * HalfCount(h.c) + (sub - HalfCount(h.c));
      countAt := h.counts[i];
      countTo := countTo + countAt;
      value := sub * Pow2(bucket + h.c.unit);
      highest := Highest(h.c, value);
      next := next + 1;
      more := true;
    }
  }

  /** Where the iterator moves to. */
  lemma NextPlace(c: Config, n: nat)
    requires c.buckets > 0
    ensures n > 0 ==> if SubAt(c, n - 1) + 1 >= SubCount(c)
              then BucketAt(c, n) == BucketAt(c, n - 1) + 1 && SubAt(c, n) == HalfCount(c)
                      else BucketAt(c, n) == BucketAt(c, n - 1) && SubAt(c, n) == SubAt(c, n - 1) + 1
    ensures n == 0 ==> BucketAt(c, 0) == 0 && SubAt(c, 0) == 0
    ensures n < CountsLen(c) ==> BucketAt(c, n) < c.buckets
    ensures (BucketAt(c, n) + 1) * HalfCount(c) + (SubAt(c, n) - HalfCount(c)) == n && LowAt(c, n) >= 0
            && SubCount(c) > 1
  {
    var h := HalfCount(c);
    LowNonnegative(c, n);
    MulNext(BucketAt(c, n), h);
    if n > 0 {
      BucketStep(c, n - 1);
      SubAtBounds(c, n);
    }
    if n < CountsLen(c) && n >= 2 * h {
      DivBounds(n, h);
      if n / h > c.buckets {
        MulMonotone(c.buckets + 1, n / h, h);
      }
    }
  }

  /** Going down from the highest value of counter last gets to the lowest value of it. */
  lemma MaxLow(c: Config, last: nat, e: nat)
    requires Index(c, e) == last && RangeFits(c, e)
    ensures Lowest(c, Highest(c, LowNat(c, last))) == Lowest(c, e)
  {
    hide *;
    LowIs(c, last);
    IndexOnto(c, last);
    var low := LowNat(c, last);
    WithinRange(c, low);
    SameRange(c, e, low);
    SameCounter(c, low, Highest(c, low));
    SameRange(c, low, Highest(c, low));
  }

  lemma MinLow(c: Config, i: nat, e: nat, low: nat)
    requires Index(c, e) == i && low == LowAt(c, i)
    ensures low == Lowest(c, e)
  {
    IndexHolds(c, e);
  }

  /** The iterator has stopped because it has all counts. */
  lemma PrefixRest(c: Config, values: seq<nat>, counts: seq<nat>, n: nat)
    requires Agrees(c, values, counts) && n <= |counts| && Prefix(counts, n) >= |values|
    ensures Prefix(counts, n) == |values|
  {
    PrefixIsAll(c, values, counts);
    PrefixMonotone(counts, n, |counts|);
  }

  /** Values with the same counter have the same range. */
  lemma SameRange(c: Config, v: nat, w: nat)
    requires Index(c, v) == Index(c, w)
    ensures Lowest(c, v) == Lowest(c, w) && Highest(c, v) == Highest(c, w) && (RangeFits(c, v) <==> RangeFits(c, w))
  {
    hide Index, Lowest, RangeSize, LowAt, BucketAt, Pow2;
    IndexHolds(c, v);
    IndexHolds(c, w);
  }

  // ----- set-up ---------------------------------------------------------------------------------

  datatype Setup = Invalid | Ready(c: Config)

  /** hdr_init, up to the allocation. lowest is at least 1; int32 and int64 do not overflow. */
  method Init(lowest: nat, highest: nat, figures: int) returns (r: Setup)
    requires 0 < lowest
    ensures r.Invalid? <==> figures < 1 || 5 < figures
    ensures r.Ready? ==> r.c.buckets > 0 && Pow2(r.c.unit) <= lowest < Pow2(r.c.unit + 1)
    ensures r.Ready? ==> 2 * Pow10(figures) <= SubCount(r.c) && HalfCount(r.c) < 2 * Pow10(figures)
    ensures r.Ready? ==>
              highest <= Mask(r.c) * Pow2(r.c.buckets - 1)
                  && (r.c.buckets > 1 ==> Mask(r.c) * Pow2(r.c.buckets - 2) < highest)
    ensures r.Ready? ==> forall v: nat :: v <= highest ==> 0 <= Index(r.c, v) < CountsLen(r.c)
    ensures r.Ready? ==> r.c.half <= 17
    ensures r.Ready? && r.c.unit + r.c.half <= 60 ==> (NegativesFit(r.c) <==> highest > Pow2(61) - Pow2(60 - r.c.half))
  {
    hide Index, CountsLen, NegativesFit;
    if figures < 1 || 5 < figures {
      return Invalid;
    }
    var resolution := 2 * Pow10(figures);
    var magnitude := LogCeiling(resolution);
    var half := (if magnitude > 1 then magnitude else 1) - 1;
    var unit := LogFloor(lowest);
    var c := Config(unit, half, 0);
    MaskPositive(c);
    var buckets := BucketsNeeded(Mask(c), highest);
    c := c.(buckets := buckets);
    assert Pow2(0) == 1 && Pow2(1) == 2;
    forall v: nat | v <= highest ensures 0 <= Index(c, v) < CountsLen(c) {
      Covers(c, highest, v);
    }
    HalfSmall(half, figures);
    if unit + half <= 60 {
      NegativeDropped(c, highest);
    }
    r := Ready(c);
  }

  /** Five figures take 2^18 sub-buckets. */
  lemma HalfSmall(half: nat, figures: nat)
    requires figures <= 5 && Pow2(half) < 2 * Pow10(figures)
    ensures half <= 17
  {
    PowersRise(figures);
    if half > 17 {
      assert Pow2(9) == 512;
      Pow2Add(9, 8);
      assert Pow2(8) == 256;
      Pow2Grows(17, half);
    }
  }

  lemma PowersRise(k: nat)
    requires k <= 5
    ensures Pow10(k) <= 100000
  {
    assert Pow10(0) == 1 && Pow10(1) == 10 && Pow10(2) == 100 && Pow10(3) == 1000;
    assert Pow10(4) == 10000 && Pow10(5) == 100000;
  }

  lemma MaskPositive(c: Config)
    ensures Mask(c) > 0
  {
    MulPositive(SubCount(c) - 1, Pow2(c.unit));
  }

  // ----- merging ----------------------------------------------------------------------------------

  /** The counts that adding the first k counters of from, with configuration d, puts into counter j
      of a histogram with configuration c. */
  function Moved(c: Config, d: Config, from: seq<nat>, k: nat, j: int): nat
    requires k <= |from|
  {
    if k == 0 then 0 else Moved(c, d, from, k - 1, j) + if Index(c, LowNat(d, k - 1)) == j then from[k - 1] else 0
  }

  /** The counts that do not fit. */
  function Lost(c: Config, d: Config, from: seq<nat>, k: nat): nat
    requires k <= |from|
  {
    if k == 0 then 0 else Lost(c, d, from, k - 1) + if Index(c, LowNat(d, k - 1)) >= CountsLen(c) then from[k - 1]
        else 0
  }

  /** One counter of the other histogram: recorded, or its count is returned as dropped. */
  method AddCounter(h: Histogram, value: nat, count: nat) returns (dropped: nat)
    requires h.Valid()
    modifies h, h.counts
    ensures h.Valid() && h.total + dropped == old(h.total) + count
    ensures dropped == if Index(h.c, value) >= CountsLen(h.c) then count else 0
    ensures h.counts[..] == AddedTo(old(h.counts[..]), Index(h.c, value), count)
  {
    hide Index, Highest, BucketAt, SubAt, LowAt, Prefix, Count;
    RangeOf(h.c, value);
    dropped := 0;
    if count != 0 {
      CountMore(h.c, h.values, value, count, 0);
      var ok := h.RecordValues(value, count);
      if !ok {
        dropped := count;
      }
    }
  }

  ghost function AddedTo(counts: seq<nat>, i: int, n: nat): seq<nat> {
    if 0 <= i < |counts| then counts[i := counts[i] + n] else counts
  }

  /** counts after the first k counters of from have been added to counts0. */
  ghost predicate Merged(counts0: seq<nat>, counts: seq<nat>, c: Config, d: Config, from: seq<nat>, k: nat) {
    k <= |from| && |counts| == |counts0| && forall j {:trigger counts[j]} :: 0 <= j < |counts| ==>
        counts[j] == counts0[j] + Moved(c, d, from, k, j)
  }

  lemma MergeStep(counts0: seq<nat>, counts: seq<nat>, c: Config, d: Config, from: seq<nat>, k: nat)
    requires Merged(counts0, counts, c, d, from, k) && k < |from|
    ensures Merged(counts0, AddedTo(counts, Index(c, LowNat(d, k)), from[k]), c, d, from, k + 1)
  {
    hide Index, LowNat;
  }

  /** hdr_add: every counter of the other histogram is recorded at its lowest value. Counts are
      conserved: added and dropped together are those of the other histogram. */
  method Add(h: Histogram, from: Histogram) returns (dropped: nat)
    requires h.Valid() && from.Valid() && h != from && h.counts != from.counts
    modifies h, h.counts
    ensures h.Valid() && h.total + dropped == old(h.total) + from.total
    ensures dropped == Lost(h.c, from.c, from.counts[..], from.counts.Length)
    ensures Merged(old(h.counts[..]), h.counts[..], h.c, from.c, from.counts[..], from.counts.Length)
  {
    hide Index, Agrees, Highest, BucketAt, SubAt, LowAt, Prefix, Merged, LowNat, AddedTo;
    dropped := 0;
    ghost var counts0, f := h.counts[..], from.counts[..];
    var it := new Iter(from);
    MovedNone(counts0, h.c, from.c, f);
    while true
      invariant h.Valid() && it.Valid() && it.h == from && from.counts[..] == f
      invariant dropped == Lost(h.c, from.c, f, it.next) && h.total + dropped == old(h.total) + it.countTo
      invariant Merged(counts0, h.counts[..], h.c, from.c, f, it.next)
      decreases from.counts.Length - it.next
    {
      var more := it.Next();
      if !more {
        break;
      }
      LowIs(from.c, it.next - 1);
      MergeStep(counts0, h.counts[..], h.c, from.c, f, it.next - 1);
      var lost := AddCounter(h, it.value, it.countAt);
      dropped := dropped + lost;
    }
    PrefixRest(from.c, from.values, f, it.next);
    NothingLeft(from.c, from.values, f, it.next);
    MergedRest(counts0, h.counts[..], h.c, from.c, f, it.next);
  }

  lemma MovedNone(counts: seq<nat>, c: Config, d: Config, from: seq<nat>)
    ensures Lost(c, d, from, 0) == 0 && Merged(counts, counts, c, d, from, 0)
  {
    assert forall j: int :: Moved(c, d, from, 0, j) == 0;
  }

  lemma RangeOf(c: Config, v: nat)
    ensures Index(c, v) >= 0
  {
    IndexHolds(c, v);
  }

  /** Counters after the last count are empty. */
  lemma NothingLeft(c: Config, values: seq<nat>, counts: seq<nat>, n: nat)
    requires Agrees(c, values, counts) && n <= |counts| && Prefix(counts, n) == |values|
    ensures forall i :: n <= i < |counts| ==> counts[i] == 0
  {
    PrefixIsAll(c, values, counts);
    forall i | n <= i < |counts| ensures counts[i] == 0 {
      PrefixMonotone(counts, n, i);
      PrefixMonotone(counts, i + 1, |counts|);
    }
  }

  lemma MergedRest(counts0: seq<nat>, counts: seq<nat>, c: Config, d: Config, from: seq<nat>, n: nat)
    requires Merged(counts0, counts, c, d, from, n) && forall i :: n <= i < |from| ==> from[i] == 0
    ensures Merged(counts0, counts, c, d, from, |from|) && Lost(c, d, from, |from|) == Lost(c, d, from, n)
  {
    MovedRest(c, d, from, n, |counts|);
  }

  lemma {:induction false} MovedRest(c: Config, d: Config, from: seq<nat>, n: nat, len: nat)
    requires n <= |from| && forall i :: n <= i < |from| ==> from[i] == 0
    ensures Lost(c, d, from, |from|) == Lost(c, d, from, n)
    ensures forall j :: 0 <= j < len ==> Moved(c, d, from, |from|, j) == Moved(c, d, from, n, j)
    decreases |from| - n
  {
    if n < |from| {
      MovedRest(c, d, from, n + 1, len);
    }
  }

  /** With equal configurations nothing is dropped, and the counters add up one by one. */
  lemma {:induction false} SameConfig(c: Config, from: seq<nat>, k: nat, j: nat)
    requires |from| == CountsLen(c) && k <= |from|
    ensures Moved(c, c, from, k, j) == if j < k then from[j] else 0
    ensures Lost(c, c, from, k) == 0
    decreases k
  {
    if k > 0 {
      SameConfig(c, from, k - 1, j);
      IndexOnto(c, k - 1);
    }
  }

  // ----- percentiles in order, and negative values ---------------------------------------------

  /** A larger percentile is never a smaller value. */
  lemma PercentileMonotone(c: Config, values: seq<nat>, p: real, q: real, r: nat, s: nat, d: nat, e: nat)
    requires p <= q && values != [] && RangeFits(c, e) && Nearest(p, |values|, r) && Nearest(q, |values|, s)
    requires IsRank(values, d, r) && IsRank(values, e, s)
    ensures Highest(c, d) <= Highest(c, e)
  {
    hide *;
    NearestMonotone(p, q, |values|, r, s);
    RankMonotone(values, d, r, e, s);
    HighestMonotone(c, d, e);
  }

  lemma HighestMonotone(c: Config, d: nat, e: nat)
    requires d <= e
    ensures Highest(c, d) <= Highest(c, e)
  {
    hide Index, LowAt, BucketAt, Lowest, RangeSize;
    IndexMonotone(c, d, e);
    IndexHolds(c, d);
    IndexHolds(c, e);
    NextLow(c, Index(c, d));
    NextLow(c, Index(c, e));
    LowMonotone(c, Index(c, d) + 1, Index(c, e) + 1);
  }

  lemma NearestMonotone(p: real, q: real, total: nat, r: nat, s: nat)
    requires p <= q && Nearest(p, total, r) && Nearest(q, total, s)
    ensures r <= s
  {
    MulReal(if p < 100.0 then p else 100.0, if q < 100.0 then q else 100.0, total as real);
  }

  lemma MulReal(a: real, b: real, t: real)
    requires a <= b && t >= 0.0
    ensures a * t <= b * t
  {
  }

  lemma NotNegative(c: Config, v: nat)
    requires c.half <= 63
    ensures IndexFor(c, v) == Index(c, v) && Index(c, v) >= 0 && CountedAs(c, v) == v
  {
    IndexHolds(c, v);
  }

  lemma CountedThere(c: Config, v: int)
    requires c.half <= 63 && IndexFor(c, v) >= 0
    ensures Index(c, CountedAs(c, v)) == IndexFor(c, v)
  {
    IndexOnto(c, IndexFor(c, v));
  }

  /** Negative values are in range all together or not at all. */
  lemma NegativeRange(c: Config, v: int)
    requires c.half <= 63 && v < 0 && Int64(v)
    ensures 0 <= IndexFor(c, v) < CountsLen(c) <==> NegativesFit(c)
  {
    var b := 63 - c.unit - c.half;
    var h := HalfCount(c);
    NegativePlace(c, v);
    if b <= 0 {
      MulInt(b, 0, h);
    } else if c.buckets + c.unit + c.half >= 62 {
      MulInt(0, b - 1, h);
      MulInt(b, c.buckets + 1, h);
    } else {
      MulInt(c.buckets + 1, b - 1, h);
    }
  }

  lemma NegativePlace(c: Config, v: int)
    requires c.half <= 63 && v < 0 && Int64(v)
    ensures (62 - c.unit - c.half) * HalfCount(c) <= IndexFor(c, v) < (63 - c.unit - c.half) * HalfCount(c)
  {
    var b := 63 - c.unit - c.half;
    var h, p := HalfCount(c), Pow2(63 - c.half);
    Pow2Add(c.half, 63 - c.half);
    ShiftDown(v, h, p);
    MulInt(b, b, h);
    MulInt(b - 1, b - 1, h);
  }

  /** What a caller of hdr_init can tell: negative values are counted, and not turned down, exactly
      if the highest value is above this bound. */
  lemma NegativeDropped(c: Config, highest: nat)
    requires c.buckets > 0 && c.unit + c.half <= 60
    requires highest <= Mask(c) * Pow2(c.buckets - 1) && (c.buckets > 1 ==> Mask(c) * Pow2(c.buckets - 2) < highest)
    ensures NegativesFit(c) <==> highest > Pow2(61) - Pow2(60 - c.half)
  {
    var k := 60 - c.unit - c.half;
    MaskAt(c, k);
    if c.buckets + c.unit + c.half >= 62 {
      MaskGrows(c, k, c.buckets - 2);
    } else {
      MaskGrows(c, c.buckets - 1, k);
    }
  }

  /** Three figures and a highest value of 2^62: -1 is not turned down, but counted with the values
      from 2047 * 2^51 on. */
  method NegativeExample() returns (h: Histogram, ok: bool)
    ensures h.Valid() && ok && h.values == [2047 * Pow2(51)]
  {
    var setup := Init(1, Pow2(62), 3);
    assert Pow10(3) == 1000;
    ThreeFigures(setup.c);
    h := new Histogram(setup.c);
    assert 0 < Pow2(63) && Pow2(62) == 2 * Pow2(61);
    ok := h.RecordValue(-1);
    MinusOne(h.c);
  }

  lemma ThreeFigures(c: Config)
    requires Pow2(c.unit) <= 1 && Pow2(c.half) < 2000 <= Pow2(c.half + 1)
    ensures c.unit == 0 && c.half == 10 && HalfCount(c) == 1024
  {
    assert Pow2(8) == 256;
    assert Pow2(10) == 1024;
    if c.half > 10 {
      Pow2Grows(10, c.half);
    }
    if c.half < 9 {
      Pow2Grows(c.half + 1, 10);
    }
  }

  lemma MinusOne(c: Config)
    requires c.unit == 0 && c.half == 10 && HalfCount(c) == 1024
    ensures IndexFor(c, -1) >= 0 && CountedAs(c, -1) == 2047 * Pow2(51)
  {
    ShiftOne(Pow2(53));
    assert IndexFor(c, -1) == 54271;
    assert BucketAt(c, 54271) == 51 && SubAt(c, 54271) == 2047;
  }

  lemma ShiftOne(p: nat)
    requires p > 0
    ensures -1 / p == -1
  {
  }

  lemma MaskAt(c: Config, k: nat)
    requires c.unit + c.half + k == 60
    ensures Mask(c) * Pow2(k) == Pow2(61) - Pow2(60 - c.half)
  {
    Pow2Add(c.unit, k);
    Pow2Add(c.half + 1, c.unit + k);
    Distribute(SubCount(c), Pow2(c.unit), Pow2(k));
  }

  lemma Distribute(s: nat, p: nat, q: nat)
    ensures (s - 1) * p * q == s * (p * q) - p * q
  {
  }

  lemma MaskGrows(c: Config, j: nat, k: nat)
    requires j <= k
    ensures Mask(c) * Pow2(j) <= Mask(c) * Pow2(k)
  {
    if j < k {
      Pow2Grows(j, k);
    }
    MulRight(Mask(c), Pow2(j), Pow2(k));
  }

  lemma MulRight(a: nat, p: nat, q: nat)
    requires p <= q
    ensures a * p <= a * q
  {
  }

  lemma ShiftDown(v: int, h: nat, p: nat)
    requires h > 0 && p > 0 && -(h * p as int) <= v < 0
    ensures -(h as int) <= v / p < 0 && (v == -(h * p as int) ==> v / p == -(h as int))
  {
    var q := v / p;
    var k: int := h;
    assert q * p <= v < q * p + p;
    if q < -k {
      MulInt(q + 1, -k, p);
    } else if q >= 0 {
      MulInt(0, q, p);
    } else if v == -(k * p) && q > -k {
      MulInt(-k + 1, q, p);
    }
  }

  lemma MulInt(a: int, b: int, p: nat)
    requires a <= b
    ensures a * p <= b * p && (a + 1) * p == a * p + p && -a * p == -(a * p)
  {
  }
}
