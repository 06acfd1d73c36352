/** What the counters of a histogram say about the recorded values. */
module HdrCounts {
  import opened HdrIndex

  /** How many of the values belong to counter i. */
  function Count(c: Config, values: seq<nat>, i: int): nat {
    if values == [] then 0
    else Count(c, values[..|values| - 1], i) + if Index(c, values[|values| - 1]) == i then 1 else 0
  }

  /** The sum of the first k counters. */
  function Prefix(counts: seq<nat>, k: nat): nat
    requires k <= |counts|
  {
    if k == 0 then 0 else Prefix(counts, k - 1) + counts[k - 1]
  }

  /** The counters agree with the values. */
  ghost predicate Agrees(c: Config, values: seq<nat>, counts: seq<nat>) {
    && c.buckets > 0 && |counts| == CountsLen(c)
    && (forall i {:trigger counts[i]} :: 0 <= i < |counts| ==> counts[i] == Count(c, values, i))
    && (forall v <- values :: v < SubCount(c) * Pow2(c.buckets - 1 + c.unit))
  }

  function Repeat(v: nat, n: nat): seq<nat> { if n == 0 then [] else Repeat(v, n - 1) + [v] }

  lemma CountOne(c: Config, values: seq<nat>, v: nat, i: int)
    ensures Count(c, values + [v], i) == Count(c, values, i) + if Index(c, v) == i then 1 else 0
  {
    assert (values + [v])[..|values|] == values;
  }

  lemma {:induction false} CountMore(c: Config, values: seq<nat>, v: nat, n: nat, i: int)
    ensures Count(c, values + Repeat(v, n), i) == Count(c, values, i) + if Index(c, v) == i then n else 0
    ensures |values + Repeat(v, n)| == |values| + n
  {
    hide Index, Count;
    if n == 0 {
      assert values + [] == values;
    } else {
      CountMore(c, values, v, n - 1, i);
      CountOne(c, values + Repeat(v, n - 1), v, i);
      assert values + Repeat(v, n) == (values + Repeat(v, n - 1)) + [v];
    }
  }

  lemma {:induction false} RepeatHas(v: nat, n: nat, x: nat)
    requires x in Repeat(v, n)
    ensures x == v
  {
    if x in Repeat(v, n - 1) {
      RepeatHas(v, n - 1, x);
    }
  }

  /** Recording a value n times. */
  lemma RecordAgrees(c: Config, values: seq<nat>, counts: seq<nat>, v: nat, n: nat, i: nat)
    requires Agrees(c, values, counts) && i == Index(c, v) && i < |counts|
    ensures Agrees(c, values + Repeat(v, n), counts[i := counts[i] + n])
  {
    var more := values + Repeat(v, n);
    forall j | 0 <= j < |counts| ensures counts[i := counts[i] + n][j] == Count(c, more, j) {
      CountMore(c, values, v, n, j);
    }
    Recordable(c, v);
    forall x | x in more ensures x < SubCount(c) * Pow2(c.buckets - 1 + c.unit) {
      if x !in values {
        RepeatHas(v, n, x);
      }
    }
  }

  // ----- counting by order --------------------------------------------------------------------

  /** How many of the values are below x. */
  function Below(values: seq<nat>, x: int): nat {
    if values == [] then 0 else Below(values[..|values| - 1], x) + if values[|values| - 1] < x then 1 else 0
  }

  lemma {:induction false} BelowMonotone(values: seq<nat>, x: int, y: int)
    requires x <= y
    ensures Below(values, x) <= Below(values, y) <= |values|
  {
    if values != [] {
      BelowMonotone(values[..|values| - 1], x, y);
    }
  }

  /** The counters up to k together count the values below the range of counter k. */
  lemma {:induction false} PrefixIsBelow(c: Config, values: seq<nat>, counts: seq<nat>, k: nat)
    requires Agrees(c, values, counts) && k <= |counts|
    ensures Prefix(counts, k) == Below(values, LowAt(c, k))
    decreases k
  {
    if k == 0 {
      SubAtBounds(c, 0);
      assert LowAt(c, 0) == 0;
      NoneBelow(values, 0);
    } else {
      PrefixIsBelow(c, values, counts, k - 1);
      NextLow(c, k - 1);
      BelowNext(c, values, k - 1);
    }
  }

  lemma {:induction false} NoneBelow(values: seq<nat>, x: int)
    requires x <= 0
    ensures Below(values, x) == 0
  {
    if values != [] {
      NoneBelow(values[..|values| - 1], x);
    }
  }

  lemma {:induction false} BelowNext(c: Config, values: seq<nat>, i: nat)
    ensures Below(values, LowAt(c, i + 1)) == Below(values, LowAt(c, i)) + Count(c, values, i)
  {
    if values != [] {
      BelowNext(c, values[..|values| - 1], i);
      Partition(c, values[|values| - 1], i);
      NextLow(c, i);
    }
  }

  /** All counters together count all values. */
  lemma PrefixIsAll(c: Config, values: seq<nat>, counts: seq<nat>)
    requires Agrees(c, values, counts)
    ensures Prefix(counts, |counts|) == |values| && c.buckets > 0 && |counts| == CountsLen(c)
  {
    PrefixIsBelow(c, values, counts, |counts|);
    LastLow(c);
    AllBelow(values, LowAt(c, CountsLen(c)));
  }

  lemma {:induction false} AllBelow(values: seq<nat>, x: int)
    requires forall v <- values :: v < x
    ensures Below(values, x) == |values|
  {
    if values != [] {
      assert values[|values| - 1] in values;
      var init := values[..|values| - 1];
      forall v | v in init ensures v < x {
        assert v in values;
      }
      AllBelow(init, x);
    }
  }

  lemma {:induction false} PrefixMonotone(counts: seq<nat>, j: nat, k: nat)
    requires j <= k <= |counts|
    ensures Prefix(counts, j) <= Prefix(counts, k)
    decreases k - j
  {
    if j < k {
      PrefixMonotone(counts, j + 1, k);
    }
  }

  // ----- ranks --------------------------------------------------------------------------------

  /** e is the element at rank r (from 1) of the values in order. */
  ghost predicate IsRank(values: seq<nat>, e: nat, r: nat) {
    e in values && Below(values, e) < r <= Below(values, e + 1)
  }

  lemma RankUnique(values: seq<nat>, e: nat, d: nat, r: nat)
    requires IsRank(values, e, r) && IsRank(values, d, r)
    ensures e == d
  {
    if e < d {
      BelowMonotone(values, e + 1, d);
    } else if d < e {
      BelowMonotone(values, d + 1, e);
    }
  }

  /** A larger rank has no smaller element. */
  lemma RankMonotone(values: seq<nat>, e: nat, r: nat, d: nat, q: nat)
    requires IsRank(values, e, r) && IsRank(values, d, q) && r <= q
    ensures e <= d
  {
    if d < e {
      BelowMonotone(values, d + 1, e);
    }
  }

  /** Every rank up to the number of values has an element. */
  lemma {:induction false} RankFrom(values: seq<nat>, r: nat, x: nat, top: nat) returns (e: nat)
    requires Below(values, x) < r <= Below(values, top) && x <= top
    ensures IsRank(values, e, r)
    decreases top - x
  {
    if r <= Below(values, x + 1) {
      e := x;
      HasIt(values, x);
    } else {
      if x + 1 > top {
        BelowMonotone(values, top, x + 1);
      }
      e := RankFrom(values, r, x + 1, top);
    }
  }

  lemma {:induction false} HasIt(values: seq<nat>, x: nat)
    requires Below(values, x) < Below(values, x + 1)
    ensures x in values
  {
    var last := values[|values| - 1];
    if last != x {
      HasIt(values[..|values| - 1], x);
    }
  }

  lemma RankExists(c: Config, values: seq<nat>, counts: seq<nat>, r: nat) returns (e: nat)
    requires Agrees(c, values, counts) && 0 < r <= |values|
    ensures IsRank(values, e, r)
  {
    NoneBelow(values, 0);
    LastLow(c);
    AllBelow(values, LowAt(c, CountsLen(c)));
    e := RankFrom(values, r, 0, LowAt(c, CountsLen(c)));
  }

  /** The first counter at which the counts reach r is that of the element at rank r. */
  lemma RankCounter(c: Config, values: seq<nat>, counts: seq<nat>, r: nat, e: nat, i: nat)
    requires Agrees(c, values, counts) && IsRank(values, e, r) && i < |counts|
    requires Prefix(counts, i) < r <= Prefix(counts, i + 1)
    ensures Index(c, e) == i
  {
    Recordable(c, e);
    IndexHolds(c, e);
    var k := Index(c, e);
    PrefixIsBelow(c, values, counts, k);
    PrefixIsBelow(c, values, counts, k + 1);
    BelowMonotone(values, LowAt(c, k), e);
    BelowMonotone(values, e + 1, LowAt(c, k + 1));
    if k < i {
      PrefixMonotone(counts, k + 1, i);
    } else if i < k {
      PrefixMonotone(counts, i + 1, k);
    }
  }

  /** At unit magnitude 0 the highest equivalent value exceeds a value by less than one part in
      10 to the significant figures, when there are twice as many sub-buckets as that. */
  lemma Accuracy(c: Config, v: nat, parts: nat)
    requires c.unit == 0 && 2 * parts <= SubCount(c) && parts > 0 && RangeFits(c, v)
    ensures Highest(c, v) == v || (Highest(c, v) - v) * parts < v
  {
    BucketBounds(c, v);
    WithinRange(c, v);
    var b := BucketIndex(c, v);
    var d := Highest(c, v) - v;
    if b > 0 {
      Pow2Add(c.half, b);
      assert d < Pow2(b);
      MulLess(d, Pow2(b), parts);
      MulMonotone(parts, Pow2(c.half), Pow2(b));
      Commute(parts, Pow2(b));
    }
  }

  lemma MulLess(a: nat, b: nat, p: nat)
    requires a < b && p > 0
    ensures a * p < b * p
  {
  }

  lemma Commute(a: nat, b: nat)
    ensures a * b == b * a
  {
  }

  /** The counter of the greatest element is the last in use. */
  lemma MaxCounter(c: Config, values: seq<nat>, counts: seq<nat>, n: nat, last: int, e: nat)
    requires Agrees(c, values, counts) && n <= |counts| && Prefix(counts, n) == |values| && e in values
             && (forall v <- values :: v <= e)
    requires -1 <= last < n && (last >= 0 ==> counts[last] > 0) && forall j :: last < j < n ==> counts[j] == 0
    ensures last >= 0 && Index(c, e) == last
  {
    IndexHolds(c, e);
    Recordable(c, e);
    var k := Index(c, e);
    HasCount(c, values, e);
    PrefixIsBelow(c, values, counts, n);
    if k >= n {
      LowMonotone(c, n, k);
      NotAllBelow(values, LowAt(c, n), e);
    }
    if last >= 0 && k < last {
      CountHas(c, values, last);
      var v :| v in values && Index(c, v) == last;
      IndexMonotone(c, v, e);
    }
  }

  lemma {:induction false} NotAllBelow(values: seq<nat>, x: int, e: nat)
    requires e in values && x <= e
    ensures Below(values, x) < |values|
  {
    if values[|values| - 1] == e {
      BelowMonotone(values[..|values| - 1], x, x);
    } else {
      NotAllBelow(values[..|values| - 1], x, e);
    }
  }

  lemma {:induction false} HasCount(c: Config, values: seq<nat>, e: nat)
    requires e in values
    ensures Count(c, values, Index(c, e)) > 0
  {
    if values[|values| - 1] != e {
      HasCount(c, values[..|values| - 1], e);
    }
  }

  lemma {:induction false} CountHas(c: Config, values: seq<nat>, i: int)
    requires Count(c, values, i) > 0
    ensures exists v :: v in values && Index(c, v) == i
  {
    if Index(c, values[|values| - 1]) == i {
      assert values[|values| - 1] in values;
    } else {
      CountHas(c, values[..|values| - 1], i);
      var v :| v in values[..|values| - 1] && Index(c, v) == i;
      assert v in values;
    }
  }

  /** The counter of the least element is the first in use. */
  lemma MinCounter(c: Config, values: seq<nat>, counts: seq<nat>, i: nat, e: nat)
    requires Agrees(c, values, counts) && i < |counts| && Prefix(counts, i) == 0 && counts[i] > 0 && e in values
             && (forall v <- values :: e <= v)
    ensures Index(c, e) == i
  {
    IndexHolds(c, e);
    Recordable(c, e);
    var k := Index(c, e);
    HasCount(c, values, e);
    if k < i {
      PrefixMonotone(counts, k + 1, i);
    }
    if i < k {
      CountHas(c, values, i);
      var v :| v in values && Index(c, v) == i;
      IndexMonotone(c, e, v);
    }
  }
}
