/** Chunk sizes and bin indices of the bundled allocator, for 64-bit size_t. */
module AllocSizes {

  const SIZE_T_SIZE: nat := 8
  const CHUNK_OVERHEAD: nat := 8
  const MIN_CHUNK_SIZE: nat := 32
  const MIN_REQUEST: nat := 23
  const MAX_SMALL_REQUEST: nat := 240
  const MIN_LARGE_SIZE: nat := 256
  const TOP_FOOT_SIZE: nat := 64
  const SIZE_T_LIMIT: nat := 0x1_0000_0000_0000_0000
  const MAX_REQUEST: nat := SIZE_T_LIMIT - 128
  const GRANULARITY: nat := 0x2_0000

  /** compute_tree_index keeps only 32 bits of size / 256, so sizes stay below this. */
  const SIZE_LIMIT: nat := 0x100_0000_0000

  /** pad_request(req) for requests that do not wrap around. */
  function PadRequest(req: nat): nat { (req + 15) / 8 * 8 }

  function Request2Size(req: nat): nat { if req < MIN_REQUEST then MIN_CHUNK_SIZE else PadRequest(req) }

  /** A chunk of the padded size has room for the request beside its header word, wastes less
      than one alignment unit (or is the smallest chunk there is), and stays aligned. */
  lemma PaddedFits(req: nat)
    ensures var nb := Request2Size(req);
            nb % 8 == 0 && nb >= MIN_CHUNK_SIZE && nb - CHUNK_OVERHEAD >= req
            && (nb == MIN_CHUNK_SIZE || nb - CHUNK_OVERHEAD < req + 8)
    ensures req <= MAX_SMALL_REQUEST <==> Request2Size(req) < MIN_LARGE_SIZE
  {
  }

  predicate IsSmall(s: nat) { s < MIN_LARGE_SIZE }

  function SmallIndex(s: nat): nat { s / 8 }

  /** s >> k. */
  function Shr(s: nat, k: nat): nat { if k == 0 then s else Shr(s, k - 1) / 2 }

  lemma {:induction false} ShrMonotone(s: nat, t: nat, k: nat)
    requires s <= t
    ensures Shr(s, k) <= Shr(t, k)
  {
    if k > 0 {
      ShrMonotone(s, t, k - 1);
    }
  }

  lemma {:induction false} ShrShr(s: nat, j: nat, k: nat)
    ensures Shr(Shr(s, j), k) == Shr(s, j + k)
  {
    if k > 0 {
      ShrShr(s, j, k - 1);
    }
  }

  lemma {:induction false} ShrSmall(s: nat, k: nat)
    ensures s < Pow2(k) <==> Shr(s, k) == 0
    decreases k
  {
    if k > 0 {
      ShrSmall(s / 2, k - 1);
      ShrShr(s, 1, k - 1);
      assert Shr(s, 1) == s / 2;
    }
  }

  function Pow2(k: nat): nat { if k == 0 then 1 else 2 * Pow2(k - 1) }

  /** lj_fls: the index of the highest bit of x. */
  function Fls(x: nat): nat
    requires x > 0
  {
    if x == 1 then 0 else 1 + Fls(x / 2)
  }

  lemma {:induction false} FlsTop(x: nat)
    requires x > 0
    ensures Shr(x, Fls(x)) == 1
  {
    if x > 1 {
      FlsTop(x / 2);
      ShrShr(x, 1, Fls(x / 2));
      assert Shr(x, 1) == x / 2;
    }
  }

  lemma {:induction false} FlsMonotone(x: nat, y: nat)
    requires 0 < x <= y
    ensures Fls(x) <= Fls(y)
  {
    if x > 1 {
      FlsMonotone(x / 2, y / 2);
    }
  }

  lemma {:induction false} FlsBound(x: nat, k: nat)
    requires 0 < x < Pow2(k)
    ensures Fls(x) < k
  {
    if x > 1 {
      FlsBound(x / 2, k - 1);
    }
  }

  /** compute_tree_index, which keeps only 32 bits of s / 256. */
  function TreeIndex(s: nat): nat {
    var x := (s / 256) % 0x1_0000_0000;
    if x == 0 then 0
    else if x > 0xFFFF then 31
    else
      var k := Fls(x);
      2 * k + Shr(s, k + 7) % 2
  }

  /** How many low bits the sizes in tree bin i may differ in: one more than
      bit_for_tree_index(i), the bit that the root of the bin branches on. */
  function TreeBits(i: nat): nat { if i == 31 then 64 else i / 2 + 7 }

  /** What the sizes in tree bin i have above those bits. */
  function TreePrefix(i: nat): nat { if i == 31 then 0 else 2 + i % 2 }

  lemma Pow2Sixteen()
    ensures Pow2(16) == 0x1_0000
  {
    assert Pow2(8) == 256;
  }

  lemma TreeIndexBelow32(s: nat)
    ensures TreeIndex(s) < 32
  {
    var x := (s / 256) % 0x1_0000_0000;
    if 0 < x <= 0xFFFF {
      Pow2Sixteen();
      FlsBound(x, 16);
    }
  }

  lemma ShrTwo(s: nat)
    ensures Shr(s, 2) == s / 4
  {
    assert Shr(s, 1) == s / 2;
  }

  lemma ShrEight(s: nat)
    ensures Shr(s, 8) == s / 256
  {
    ShrTwo(s);
    ShrTwo(s / 4);
    ShrTwo(s / 16);
    ShrTwo(s / 64);
    ShrShr(s, 2, 2);
    ShrShr(s, 4, 2);
    ShrShr(s, 6, 2);
  }

  /** The bins are the intervals of sizes with a common prefix. */
  lemma TreeIndexPrefix(s: nat)
    requires MIN_LARGE_SIZE <= s < SIZE_LIMIT
    ensures var i := TreeIndex(s); Shr(s, TreeBits(i)) == TreePrefix(i)
  {
    var x := s / 256;
    var i := TreeIndex(s);
    TreeIndexBelow32(s);
    ShrEight(s);
    if x <= 0xFFFF && i != 31 {
      var k := Fls(x);
      FlsTop(x);
      ShrShr(s, 8, k);
      assert Shr(s, k + 8) == Shr(s, k + 7) / 2;
      assert i / 2 == k;
    } else {
      Big(s);
    }
  }

  lemma Pow2Forty()
    ensures Pow2(40) == SIZE_LIMIT
  {
    Pow2Sixteen();
    assert Pow2(20) == 0x10_0000;
    assert Pow2(28) == 0x1000_0000;
    assert Pow2(36) == 0x10_0000_0000;
  }

  lemma {:induction false} ShrZero(k: nat)
    ensures Shr(0, k) == 0
  {
    if k > 0 {
      ShrZero(k - 1);
    }
  }

  lemma Big(s: nat)
    requires s < SIZE_LIMIT
    ensures Shr(s, 64) == 0
  {
    Pow2Forty();
    ShrSmall(s, 40);
    ShrShr(s, 40, 24);
    ShrZero(24);
  }

  lemma NotTruncated(s: nat)
    requires s < SIZE_LIMIT
    ensures (s / 256) % 0x1_0000_0000 == s / 256
  {
  }

  lemma SameTop(s: nat, t: nat)
    requires 256 <= s <= t && Fls(s / 256) == Fls(t / 256)
    ensures Shr(s, Fls(s / 256) + 7) % 2 <= Shr(t, Fls(s / 256) + 7) % 2
  {
    var k := Fls(s / 256);
    ShrMonotone(s, t, k + 7);
    FlsTop(s / 256);
    FlsTop(t / 256);
    ShrEight(s);
    ShrEight(t);
    ShrShr(s, 8, k);
    ShrShr(t, 8, k);
    assert Shr(s, k + 8) == Shr(s, k + 7) / 2 && Shr(t, k + 8) == Shr(t, k + 7) / 2;
  }

  /** A larger chunk is never in an earlier bin. */
  lemma TreeIndexMonotone(s: nat, t: nat)
    requires s <= t < SIZE_LIMIT
    ensures TreeIndex(s) <= TreeIndex(t)
  {
    hide Shr, Fls;
    var x, y := s / 256, t / 256;
    assert x <= y;
    NotTruncated(s);
    NotTruncated(t);
    TreeIndexBelow32(s);
    if 0 < x && y <= 0xFFFF {
      FlsMonotone(x, y);
      if Fls(x) == Fls(y) {
        SameTop(s, t);
      }
    }
  }

  lemma AlignedGap(a: nat, b: nat)
    requires a % 8 == 0 && b % 8 == 0 && a <= b
    ensures (b - a) % 8 == 0 && (a + b) % 8 == 0
  {
  }
}
