/** The bins of the allocator: 32 lists of small free chunks and 32 tries of large ones, each
    with a bitmap that says which are in use. `free` is what they hold, as address -> size. */
module AllocBins {
  import opened AllocSizes
  import opened AllocTrie

  datatype Found = None | Chunk(addr: nat, size: nat)

  predicate SizeOk(s: nat) { s % 8 == 0 && MIN_CHUNK_SIZE <= s < SIZE_LIMIT }

  ghost predicate SmallOk(map_: set<nat>, bins: seq<seq<nat>>, free: map<nat, nat>) {
    && |bins| == 32
    && (forall i <- map_ :: i < 32)
    && (forall i {:trigger bins[i]} :: 0 <= i < 32 ==>
          (i in map_ <==> bins[i] != []) && Distinct(bins[i]) && SmallIn(bins[i], i, free))
    && (forall a {:trigger free[a]} :: a in free && IsSmall(free[a]) ==> a in bins[free[a] / 8])
  }

  ghost predicate SmallIn(bin: seq<nat>, i: nat, free: map<nat, nat>) {
    forall a <- bin :: a in free && free[a] == 8 * i && IsSmall(8 * i)
  }

  ghost predicate TreeOk(map_: set<nat>, bins: seq<Tree>, free: map<nat, nat>) {
    && |bins| == 32
    && (forall i <- map_ :: i < 32)
    && (forall i {:trigger bins[i]} :: 0 <= i < 32 ==>
          (i in map_ <==> bins[i].Node?) && Trie(bins[i], TreeBits(i), TreePrefix(i)) && TreeIn(bins[i], i, free))
    && (forall a {:trigger free[a]} :: a in free && !IsSmall(free[a]) && free[a] < SIZE_LIMIT ==>
        InTree(bins, a, free[a]))
  }

  ghost predicate InTree(bins: seq<Tree>, a: nat, s: nat)
    requires |bins| == 32
  {
    TreeIndexBelow32(s);
    In(bins[TreeIndex(s)], a, s)
  }

  ghost predicate TreeIn(t: Tree, i: nat, free: map<nat, nat>) {
    forall a: nat, s: nat {:trigger In(t, a, s)} :: In(t, a, s) ==>
      a in free && free[a] == s && !IsSmall(s) && s < SIZE_LIMIT && TreeIndex(s) == i
  }

  ghost predicate SizesOk(free: map<nat, nat>) { forall a {:trigger free[a]} :: a in free ==> SizeOk(free[a]) }

  // ----- what changing one bin does ---------------------------------------------------

  lemma SmallInsert(m: set<nat>, bins: seq<seq<nat>>, free: map<nat, nat>, x: nat, s: nat)
    requires SmallOk(m, bins, free) && SizeOk(s) && IsSmall(s) && x !in free
    ensures s / 8 < 32 && SmallOk(m + {s / 8}, bins[s / 8 := [x] + bins[s / 8]], free[x := s])
  {
    var i := s / 8;
    var bin := bins[i];
    var bins' := bins[i := [x] + bin];
    var free' := free[x := s];
    assert x !in bin;
    assert forall a :: a in [x] + bin <==> a == x || a in bin;
    assert Distinct([x] + bin);
    forall j | 0 <= j < 32 ensures SmallIn(bins'[j], j, free') {
      assert SmallIn(bins[j], j, free);
    }
  }

  lemma SmallRemove(m: set<nat>, bins: seq<seq<nat>>, free: map<nat, nat>, x: nat)
    requires SmallOk(m, bins, free) && x in free && SizeOk(free[x]) && IsSmall(free[x])
    ensures var i := free[x] / 8;
            var bin := Drop(bins[i], x);
            i < 32 && SmallOk(if bin == [] then m - {i} else m, bins[i := bin], free - {x})
  {
    var i := free[x] / 8;
    var bin := bins[i];
    DropOk(bin, x);
    var bins' := bins[i := Drop(bin, x)];
    var free' := free - {x};
    forall j | 0 <= j < 32 ensures SmallIn(bins'[j], j, free') {
      assert SmallIn(bins[j], j, free);
    }
    forall a | a in free' && IsSmall(free'[a]) ensures a in bins'[free'[a] / 8] {
      assert free'[a] == free[a] && a in bins[free[a] / 8];
    }
  }

  lemma SmallSkips(m: set<nat>, bins: seq<seq<nat>>, free: map<nat, nat>, x: nat, s: nat)
    requires SmallOk(m, bins, free) && !IsSmall(s)
    ensures x !in free ==> SmallOk(m, bins, free[x := s])
    ensures x in free && free[x] == s ==> SmallOk(m, bins, free - {x})
  {
    if x !in free {
      forall j | 0 <= j < 32 ensures SmallIn(bins[j], j, free[x := s]) { assert SmallIn(bins[j], j, free); }
    } else if free[x] == s {
      var free' := free - {x};
      forall j | 0 <= j < 32 ensures SmallIn(bins[j], j, free') { assert SmallIn(bins[j], j, free); }
      forall a | a in free' && IsSmall(free'[a]) ensures a in bins[free'[a] / 8] {
        assert free'[a] == free[a];
      }
    }
  }

  lemma TreeInsert(m: set<nat>, bins: seq<Tree>, free: map<nat, nat>, x: nat, s: nat)
    requires TreeOk(m, bins, free) && SizeOk(s) && !IsSmall(s) && x !in free
    ensures var i := TreeIndex(s);
            && i < 32 && Trie(bins[i], TreeBits(i), Shr(s, TreeBits(i)))
            && TreeOk(m + {i}, bins[i := Insert(bins[i], TreeBits(i), x, s)], free[x := s])
  {
    var i := TreeIndex(s);
    TreeIndexBelow32(s);
    TreeIndexPrefix(s);
    var t := bins[i];
    assert TreeIn(t, i, free);
    InsertOk(t, TreeBits(i), x, s);
    var t' := Insert(t, TreeBits(i), x, s);
    var bins' := bins[i := t'];
    var free' := free[x := s];
    assert In(t', x, s);
    forall j | 0 <= j < 32 ensures TreeIn(bins'[j], j, free') && Trie(bins'[j], TreeBits(j), TreePrefix(j)) {
      assert TreeIn(bins[j], j, free);
    }
    forall a | a in free' && !IsSmall(free'[a]) && free'[a] < SIZE_LIMIT ensures InTree(bins', a, free'[a]) {
      TreeIndexBelow32(free'[a]);
      if a != x {
        assert free'[a] == free[a] && InTree(bins, a, free[a]);
      }
    }
    assert t'.Node?;
  }

  lemma TreeRemove(m: set<nat>, bins: seq<Tree>, free: map<nat, nat>, x: nat)
    requires TreeOk(m, bins, free) && x in free && SizeOk(free[x]) && !IsSmall(free[x])
    ensures var s := free[x];
            var i := TreeIndex(s);
            && i < 32 && Trie(bins[i], TreeBits(i), Shr(s, TreeBits(i))) && In(bins[i], x, s)
            && var t' := Remove(bins[i], TreeBits(i), x, s);
               TreeOk(if t'.Empty? then m - {i} else m, bins[i := t'], free - {x})
  {
    var s := free[x];
    var i := TreeIndex(s);
    TreeIndexBelow32(s);
    TreeIndexPrefix(s);
    var t := bins[i];
    assert TreeIn(t, i, free) && InTree(bins, x, s);
    RemoveOk(t, TreeBits(i), x, s);
    var t' := Remove(t, TreeBits(i), x, s);
    var bins' := bins[i := t'];
    var free' := free - {x};
    forall j | 0 <= j < 32 ensures TreeIn(bins'[j], j, free') && Trie(bins'[j], TreeBits(j), TreePrefix(j)) {
      assert TreeIn(bins[j], j, free);
      forall a: nat, r: nat | In(bins'[j], a, r)
        ensures a in free' && free'[a] == r && !IsSmall(r) && r < SIZE_LIMIT && TreeIndex(r) == j {
        assert In(bins[j], a, r);
      }
    }
    forall a | a in free' && !IsSmall(free'[a]) && free'[a] < SIZE_LIMIT ensures InTree(bins', a, free'[a]) {
      TreeIndexBelow32(free'[a]);
      assert free'[a] == free[a] && InTree(bins, a, free[a]);
    }
  }

  lemma TreeSkips(m: set<nat>, bins: seq<Tree>, free: map<nat, nat>, x: nat, s: nat)
    requires TreeOk(m, bins, free) && IsSmall(s)
    ensures x !in free ==> TreeOk(m, bins, free[x := s])
    ensures x in free && free[x] == s ==> TreeOk(m, bins, free - {x})
  {
    if x !in free {
      var free' := free[x := s];
      forall j | 0 <= j < 32 ensures TreeIn(bins[j], j, free') { assert TreeIn(bins[j], j, free); }
      forall a | a in free' && !IsSmall(free'[a]) && free'[a] < SIZE_LIMIT ensures InTree(bins, a, free'[a]) {
        assert free'[a] == free[a] && InTree(bins, a, free[a]);
      }
    } else if free[x] == s {
      var free' := free - {x};
      forall j | 0 <= j < 32 ensures TreeIn(bins[j], j, free') { assert TreeIn(bins[j], j, free); }
      forall a | a in free' && !IsSmall(free'[a]) && free'[a] < SIZE_LIMIT ensures InTree(bins, a, free'[a]) {
        assert free'[a] == free[a] && InTree(bins, a, free[a]);
      }
    }
  }

  // ----- the best fit -----------------------------------------------------------------

  /** size_t subtraction. */
  function Sub(a: nat, b: nat): nat
    requires a < SIZE_T_LIMIT && b < SIZE_T_LIMIT
  {
    (a + SIZE_T_LIMIT - b) % SIZE_T_LIMIT
  }

  /** rsize: the remainder of the best chunk so far, or the unsigned negation of nb. */
  function Remainder(v: Found, nb: nat): int {
    if v.Chunk? then v.size - nb else SIZE_T_LIMIT - nb
  }

  /** The wrapped subtraction turns down chunks that are too small. */
  lemma RemainderTest(v: Found, size: nat, nb: nat)
    requires size < SIZE_LIMIT && 0 < nb < SIZE_T_LIMIT && (v.Chunk? ==> nb <= v.size < SIZE_LIMIT)
    ensures Sub(size, nb) < Remainder(v, nb) <==> nb <= size && (v.Chunk? ==> size < v.size)
    ensures nb <= size ==> Sub(size, nb) == size - nb
  {
  }

  ghost predicate Within(t: Tree, root: Tree) {
    forall a: nat, s: nat {:trigger In(t, a, s)} :: In(t, a, s) ==> In(root, a, s)
  }

  /** A size that is big enough and not yet known to be beaten is still to be found in t or rst. */
  ghost predicate Covered(s: nat, v: Found, t: Tree, rst: Tree) {
    HasSize(t, s) || (v.Chunk? && v.size <= s) || (rst.Node? && MinSize(rst) <= s)
  }

  lemma {:induction false} SizeHasChunk(t: Tree, k: nat, hi: nat, s: nat)
    requires Trie(t, k, hi) && HasSize(t, s)
    ensures exists a: nat :: In(t, a, s)
  {
    if s == t.size {
      assert In(t, t.ring[0], s);
    } else if HasSize(t.child0, s) {
      SizeHasChunk(t.child0, k - 1, 2 * hi, s);
      var a: nat :| In(t.child0, a, s);
      assert In(t, a, s);
    } else {
      SizeHasChunk(t.child1, k - 1, 2 * hi + 1, s);
      var a: nat :| In(t.child1, a, s);
      assert In(t, a, s);
    }
  }

  /** One turn of the descent towards nb: t is the subtree whose prefix is that of nb, rst the
      deepest subtree that was passed on the right. */
  lemma Descend(t: Tree, k: nat, rst: Tree, kr: nat, hr: nat, v: Found, nb: nat, s: nat)
    requires t.Node? && Trie(t, k, Shr(nb, k)) && k > 0 && nb <= s && Covered(s, v, t, rst)
    requires v.Chunk? && nb <= t.size ==> v.size <= t.size
    requires nb <= t.size ==> v.Chunk?
    requires rst.Node? ==> Trie(rst, kr, hr) && Shr(MinSize(rst), k) > Shr(nb, k)
    ensures var right := Shr(nb, k - 1) % 2 == 1;
            var rst' := if t.child1.Node? && !right then t.child1 else rst;
            && Covered(s, v, if right then t.child1 else t.child0, rst')
            && (rst'.Node? ==> Shr(MinSize(rst'), k - 1) > Shr(nb, k - 1))
  {
    var right := Shr(nb, k - 1) % 2 == 1;
    PrefixStep(nb, k, Shr(nb, k));
    if right {
      if HasSize(t.child0, s) {
        SizesShare(t.child0, k - 1, 2 * Shr(nb, k), s);
        ShrMonotone(nb, s, k - 1);
      }
      assert HasSize(t, s) ==> s == t.size || HasSize(t.child1, s);
      if rst.Node? {
        assert Shr(MinSize(rst), k) == Shr(MinSize(rst), k - 1) / 2;
      }
    } else if t.child1.Node? {
      var least := MinSize(t.child1);
      MinIsLeast(t.child1, k - 1, 2 * Shr(nb, k) + 1);
      SizesShare(t.child1, k - 1, 2 * Shr(nb, k) + 1, least);
      assert Shr(least, k) == Shr(least, k - 1) / 2 == Shr(nb, k);
      if rst.Node? && MinSize(rst) < least {
        ShrMonotone(MinSize(rst), least, k);
      }
      assert HasSize(t.child1, s) ==> least <= s;
    } else {
      assert !HasSize(t.child1, s);
      if rst.Node? {
        assert Shr(MinSize(rst), k) == Shr(MinSize(rst), k - 1) / 2;
      }
    }
  }

  lemma TreeSizes(t: Tree, i: nat, free: map<nat, nat>, root: Tree)
    requires TreeIn(root, i, free) && Within(t, root) && t.Node? && t.ring != []
    ensures In(root, t.ring[0], t.size) && t.ring[0] in free && free[t.ring[0]] == t.size
    ensures !IsSmall(t.size) && t.size < SIZE_LIMIT
  {
    assert In(t, t.ring[0], t.size);
  }

  lemma ChildrenWithin(t: Tree, root: Tree)
    requires t.Node? && Within(t, root)
    ensures Within(t.child0, root) && Within(t.child1, root)
  {
    forall a: nat, s: nat | In(t.child0, a, s) ensures In(root, a, s) { assert In(t, a, s); }
    forall a: nat, s: nat | In(t.child1, a, s) ensures In(root, a, s) { assert In(t, a, s); }
  }

  ghost predicate Beaten(s: nat, v: Found, t: Tree) {
    (v.Chunk? && v.size <= s) || (t.Node? && MinSize(t) <= s)
  }

  /** The invariant of the descent, for a request that the bins can hold. */
  ghost predicate DescentOk(root: Tree, t: Tree, k: nat, hi: nat, rst: Tree, v: Found, nb: nat) {
    && hi == Shr(nb, k) && (rst.Node? ==> Shr(MinSize(rst), k) > Shr(nb, k))
    && (forall s: nat :: HasSize(root, s) && nb <= s ==> Covered(s, v, t, rst))
  }

  lemma TrieRing(t: Tree, k: nat, hi: nat)
    requires t.Node? && Trie(t, k, hi)
    ensures t.ring != []
  {
  }

  lemma TrieChildren(t: Tree, k: nat, hi: nat)
    requires t.Node? && Trie(t, k, hi)
    ensures k == 0 ==> t.child0.Empty? && t.child1.Empty?
    ensures k > 0 ==> Trie(t.child0, k - 1, 2 * hi) && Trie(t.child1, k - 1, 2 * hi + 1)
  {
  }

  lemma VisitNode(root: Tree, t: Tree, k: nat, hi: nat, rst: Tree, v0: Found, v: Found, nb: nat)
    requires t.Node? && DescentOk(root, t, k, hi, rst, v0, nb)
    requires v == v0 || (v.Chunk? && v.size == t.size)
    requires v0.Chunk? ==> v.Chunk? && v.size <= v0.size
    ensures DescentOk(root, t, k, hi, rst, v, nb)
  {
    forall s: nat | HasSize(root, s) && nb <= s ensures Covered(s, v, t, rst) {
      assert Covered(s, v0, t, rst);
    }
  }

  lemma DescendAll(root: Tree, t: Tree, k: nat, hi: nat, rst: Tree, kr: nat, hr: nat, v: Found, nb: nat)
    requires t.Node? && Trie(t, k, hi) && Trie(rst, kr, hr) && DescentOk(root, t, k, hi, rst, v, nb)
    requires v.Chunk? && nb <= t.size ==> v.size <= t.size
    requires nb <= t.size ==> v.Chunk?
    ensures var right := k > 0 && Shr(nb, k - 1) % 2 == 1;
            var rst' := if t.child1.Node? && !right then t.child1 else rst;
            var t' := if right then t.child1 else t.child0;
            var hi' := if right then 2 * hi + 1 else 2 * hi;
            && (k > 0 ==> DescentOk(root, t', k - 1, hi', rst', v, nb))
            && (t'.Empty? ==> (forall s: nat :: HasSize(root, s) && nb <= s ==> Beaten(s, v, rst'))
                              && (rst'.Node? ==> nb < MinSize(rst')))
  {
    var right := k > 0 && Shr(nb, k - 1) % 2 == 1;
    var rst' := if t.child1.Node? && !right then t.child1 else rst;
    var t' := if right then t.child1 else t.child0;
    if k == 0 {
      if rst.Node? {
        RightIsLarger(rst, kr, hr, nb, 0);
      }
    } else {
      PrefixStep(nb, k, Shr(nb, k));
      forall s: nat | HasSize(root, s) && nb <= s ensures Covered(s, v, t', rst') {
        assert Covered(s, v, t, rst);
        Descend(t, k, rst, kr, hr, v, nb, s);
      }
      DescendRest(t, k, rst, kr, hr, nb);
      if rst'.Node? {
        ShrLarger(nb, MinSize(rst'), k - 1);
      }
    }
  }

  lemma ShrLarger(nb: nat, s: nat, k: nat)
    requires Shr(s, k) > Shr(nb, k)
    ensures nb < s
  {
    if s <= nb {
      ShrMonotone(s, nb, k);
    }
  }

  lemma RightIsLarger(rst: Tree, kr: nat, hr: nat, nb: nat, k: nat)
    requires rst.Node? && Shr(MinSize(rst), k) > Shr(nb, k)
    ensures nb < MinSize(rst)
  {
    ShrLarger(nb, MinSize(rst), k);
  }

  lemma DescendRest(t: Tree, k: nat, rst: Tree, kr: nat, hr: nat, nb: nat)
    requires t.Node? && Trie(t, k, Shr(nb, k)) && k > 0
    requires rst.Node? ==> Trie(rst, kr, hr) && Shr(MinSize(rst), k) > Shr(nb, k)
    ensures var right := Shr(nb, k - 1) % 2 == 1;
            var rst' := if t.child1.Node? && !right then t.child1 else rst;
            rst'.Node? ==> Shr(MinSize(rst'), k - 1) > Shr(nb, k - 1)
  {
    PrefixStep(nb, k, Shr(nb, k));
    if t.child1.Node? && Shr(nb, k - 1) % 2 == 0 {
      MinIsLeast(t.child1, k - 1, 2 * Shr(nb, k) + 1);
      SizesShare(t.child1, k - 1, 2 * Shr(nb, k) + 1, MinSize(t.child1));
    } else if rst.Node? {
      assert Shr(MinSize(rst), k) == Shr(MinSize(rst), k - 1) / 2;
    }
  }

  // ----- the bins ---------------------------------------------------------------------

  class Bins {
    var smallmap: set<nat>
    var smallbins: seq<seq<nat>>
    var treemap: set<nat>
    var treebins: seq<Tree>
    ghost var free: map<nat, nat>

    ghost predicate Valid()
      reads this
    {
      SizesOk(free) && SmallOk(smallmap, smallbins, free) && TreeOk(treemap, treebins, free)
    }

    /** init_bins. */
    constructor ()
      ensures Valid() && free == map[]
    {
      smallmap, treemap := {}, {};
      smallbins := seq(32, _ => []);
      treebins := seq(32, _ => Empty);
      free := map[];
    }

    /** insert_chunk. */
    method InsertChunk(x: nat, s: nat)
      requires Valid() && x !in free && SizeOk(s)
      modifies this
      ensures Valid() && free == old(free)[x := s]
    {
      hide SmallOk, TreeOk;
      if IsSmall(s) {
        SmallInsert(smallmap, smallbins, free, x, s);
        TreeSkips(treemap, treebins, free, x, s);
        SmallShape(smallmap, smallbins, free);
        var i := SmallIndex(s);
        smallmap := smallmap + {i};
        smallbins := smallbins[i := [x] + smallbins[i]];
      } else {
        TreeInsert(treemap, treebins, free, x, s);
        SmallSkips(smallmap, smallbins, free, x, s);
        TreeShape(treemap, treebins, free);
        var i := TreeIndex(s);
        treemap := treemap + {i};
        treebins := treebins[i := Insert(treebins[i], TreeBits(i), x, s)];
      }
      free := free[x := s];
    }

    /** unlink_chunk. */
    method UnlinkChunk(x: nat, s: nat)
      requires Valid() && x in free && free[x] == s
      modifies this
      ensures Valid() && free == old(free) - {x}
    {
      hide SmallOk, TreeOk;
      if IsSmall(s) {
        SmallRemove(smallmap, smallbins, free, x);
        TreeSkips(treemap, treebins, free, x, s);
        SmallShape(smallmap, smallbins, free);
        var i := SmallIndex(s);
        var bin := Drop(smallbins[i], x);
        smallbins := smallbins[i := bin];
        if bin == [] {
          smallmap := smallmap - {i};
        }
      } else {
        TreeRemove(treemap, treebins, free, x);
        SmallSkips(smallmap, smallbins, free, x, s);
        TreeShape(treemap, treebins, free);
        var i := TreeIndex(s);
        var t := Remove(treebins[i], TreeBits(i), x, s);
        treebins := treebins[i := t];
        if t.Empty? {
          treemap := treemap - {i};
        }
      }
      free := free - {x};
    }

    /** unlink_first_small_chunk. */
    method TakeFirstSmall(i: nat) returns (p: nat)
      requires Valid() && i in smallmap
      modifies this
      ensures p in old(free) && old(free)[p] == 8 * i && IsSmall(8 * i)
      ensures Valid() && free == old(free) - {p}
    {
      p := FirstSmall(i);
      UnlinkChunk(p, 8 * i);
    }

    method FirstSmall(i: nat) returns (p: nat)
      requires Valid() && i in smallmap
      ensures p in free && free[p] == 8 * i && IsSmall(8 * i)
    {
      assert SmallIn(smallbins[i], i, free);
      p := smallbins[i][0];
    }

    /** The descent of tmalloc_large in the bin of nb: the best chunk v on the way, and the
        subtree in which a smaller one that still fits may be left. */
    method DescendBin(idx: nat, nb: nat) returns (v: Found, t: Tree)
      requires Valid() && MIN_LARGE_SIZE <= nb < SIZE_T_LIMIT && idx == TreeIndex(nb) && idx < 32
      ensures |treebins| == 32
      ensures v.Chunk? ==> In(treebins[idx], v.addr, v.size) && nb <= v.size
      ensures Within(t, treebins[idx]) && exists k: nat, hi: nat :: Trie(t, k, hi)
      ensures nb < SIZE_LIMIT ==> forall s: nat :: HasSize(treebins[idx], s) && nb <= s ==> Beaten(s, v, t)
      ensures t.Node? && nb < SIZE_LIMIT ==> (v.Chunk? && v.size == nb) || nb < MinSize(t)
    {
      hide Trie, Within, Covered, DescentOk, Shr, In, HasSize, MinSize, TreeOk, SmallOk, SizesOk;
      BinFacts(idx, nb);
      v := None;
      t := treebins[idx];
      ghost var root := t;
      if t.Empty? {
        return;
      }
      var k := TreeBits(idx);
      ghost var hi := TreePrefix(idx);
      var rst := Empty;
      ghost var kr, hr := 0, 0;
      while true
        invariant t.Node? && Trie(t, k, hi) && Within(t, root)
        invariant Trie(rst, kr, hr) && Within(rst, root)
        invariant v.Chunk? ==> In(root, v.addr, v.size) && nb <= v.size < SIZE_LIMIT
        invariant nb < SIZE_LIMIT ==> DescentOk(root, t, k, hi, rst, v, nb)
        decreases k
      {
        TrieRing(t, k, hi);
        SizesInBin(t, idx, root);
        RemainderTest(v, t.size, nb);
        ghost var v0 := v;
        var trem := Sub(t.size, nb);
        if trem < Remainder(v, nb) {
          v := Chunk(t.ring[0], t.size);
          if trem == 0 {
            break;
          }
        }
        if nb < SIZE_LIMIT {
          VisitNode(root, t, k, hi, rst, v0, v, nb);
        }
        ChildrenWithin(t, root);
        TrieChildren(t, k, hi);
        var right := k > 0 && Shr(nb, k - 1) % 2 == 1;
        if nb < SIZE_LIMIT {
          DescendAll(root, t, k, hi, rst, kr, hr, v, nb);
        }
        if t.child1.Node? && !right {
          rst, kr, hr := t.child1, k - 1, 2 * hi + 1;
        }
        t, hi := if right then t.child1 else t.child0, if right then 2 * hi + 1 else 2 * hi;
        if t.Empty? {
          t := rst;
          break;
        }
        k := k - 1;
      }
    }

    lemma BinFacts(idx: nat, nb: nat)
      requires Valid() && idx < 32
      ensures |treebins| == 32 && Trie(treebins[idx], TreeBits(idx), TreePrefix(idx))
              && Within(treebins[idx], treebins[idx])
      ensures Trie(Empty, 0, 0) && Within(Empty, treebins[idx])
      ensures forall s: nat :: !HasSize(Empty, s)
      ensures MIN_LARGE_SIZE <= nb < SIZE_LIMIT && idx == TreeIndex(nb) ==>
                DescentOk(treebins[idx], treebins[idx], TreeBits(idx), TreePrefix(idx), Empty, None, nb)
    {
      if MIN_LARGE_SIZE <= nb < SIZE_LIMIT {
        TreeIndexPrefix(nb);
      }
    }

    /** A subtree of bin idx holds chunks of the bins. */
    lemma SizesInBin(t: Tree, idx: nat, root: Tree)
      requires Valid() && idx < 32 && root == treebins[idx] && Within(t, root) && t.Node? && t.ring != []
      ensures In(root, t.ring[0], t.size) && t.ring[0] in free && free[t.ring[0]] == t.size
      ensures !IsSmall(t.size) && t.size < SIZE_LIMIT
    {
      assert TreeIn(treebins[idx], idx, free);
      TreeSizes(t, idx, free, root);
    }

    /** The last loop of tmalloc_large: the smallest chunk on the leftmost path of t, if it
        beats v. */
    method LeftmostScan(idx: nat, nb: nat, v0: Found, t0: Tree) returns (v: Found)
      requires Valid() && 0 < nb < SIZE_T_LIMIT && idx < 32 && |treebins| == 32
      requires v0.Chunk? ==> v0.addr in free && free[v0.addr] == v0.size && nb <= v0.size && !IsSmall(v0.size)
      requires Within(t0, treebins[idx]) && exists k: nat, hi: nat :: Trie(t0, k, hi)
      requires t0.Node? && nb < SIZE_LIMIT ==> (v0.Chunk? && v0.size == nb) || nb <= MinSize(t0)
      ensures v.Chunk? ==> v.addr in free && free[v.addr] == v.size && nb <= v.size && !IsSmall(v.size)
      ensures nb < SIZE_LIMIT ==> forall s: nat :: nb <= s && Beaten(s, v0, t0) ==> v.Chunk? && v.size <= s
      ensures v0.Chunk? ==> v.Chunk? && v.size <= v0.size
      ensures v == v0 || (v.Chunk? && In(treebins[idx], v.addr, v.size))
    {
      hide Trie, Within, Shr, In, HasSize, TreeOk, SmallOk, SizesOk;
      v := v0;
      var t := t0;
      ghost var k: nat, hi: nat :| Trie(t, k, hi);
      while t.Node?
        invariant Trie(t, k, hi) && Within(t, treebins[idx])
        invariant v.Chunk? ==> v.addr in free && free[v.addr] == v.size && nb <= v.size && !IsSmall(v.size)
        invariant t.Node? && nb < SIZE_LIMIT ==> (v.Chunk? && v.size == nb) || nb <= MinSize(t)
        invariant nb < SIZE_LIMIT ==> forall s: nat :: nb <= s && Beaten(s, v0, t0) ==> Beaten(s, v, t)
        invariant v0.Chunk? ==> v.Chunk? && v.size <= v0.size
        invariant v == v0 || (v.Chunk? && In(treebins[idx], v.addr, v.size))
        decreases t
      {
        TrieRing(t, k, hi);
        SizesInBin(t, idx, treebins[idx]);
        FreeSizes(v);
        RemainderTest(v, t.size, nb);
        var trem := Sub(t.size, nb);
        ghost var w := v;
        if trem < Remainder(v, nb) {
          v := Chunk(t.ring[0], t.size);
        }
        ChildrenWithin(t, treebins[idx]);
        TrieChildren(t, k, hi);
        if k == 0 {
          BinFacts(idx, nb);
        }
        k, hi := if k == 0 then 0 else k - 1, if k == 0 then 0 else if t.child0.Node? then 2 * hi else 2 * hi + 1;
        t := Leftmost(t);
      }
    }

    lemma FreeSizes(v: Found)
      requires Valid() && (v.Chunk? ==> v.addr in free && free[v.addr] == v.size)
      ensures v.Chunk? ==> v.size < SIZE_LIMIT
    {
    }

    /** tmalloc_large, up to the decision between the chunk found and dv: true best fit. */
    method FindLarge(nb: nat) returns (v: Found)
      requires Valid() && MIN_LARGE_SIZE <= nb < SIZE_T_LIMIT
      ensures v.Chunk? ==> v.addr in free && free[v.addr] == v.size && nb <= v.size && !IsSmall(v.size)
      ensures forall a :: a in free && !IsSmall(free[a]) && nb <= free[a] ==> v.Chunk? && v.size <= free[a]
    {
      hide Trie, Within, Shr, In, HasSize, TreeOk, SmallOk, SizesOk, MinSize;
      TreeIndexBelow32(nb);
      var idx := TreeIndex(nb);
      var t;
      BinFacts(idx, nb);
      MapFacts();
      v, t := DescendBin(idx, nb);
      FoundInBin(idx, v);
      if t.Empty? && v.None? {
        var i := NextMarked(treemap, idx + 1);
        if i < 32 {
          BinFacts(i, nb);
          LaterBin(idx, i, nb);
          v := LeftmostScan(i, nb, None, treebins[i]);
          if nb < SIZE_LIMIT {
            BestInLater(idx, i, v, nb);
          } else {
            NothingThatBig(nb);
          }
          return;
        }
        if nb < SIZE_LIMIT {
          NothingLater(idx, nb);
        } else {
          NothingThatBig(nb);
        }
        return;
      }
      ghost var v0 := v;
      v := LeftmostScan(idx, nb, v, t);
      if nb < SIZE_LIMIT {
        assert v0.None? ==> Beaten(MinSize(t), v0, t);
        IndexOfFound(idx, v);
        BestInBin(idx, v0, t, v, nb);
      } else {
        NothingThatBig(nb);
      }
    }

    lemma MapFacts()
      requires Valid()
      ensures |treebins| == 32 && |smallbins| == 32
      ensures (forall j <- treemap :: j < 32) && (forall j <- smallmap :: j < 32)
      ensures forall j :: 0 <= j < 32 ==> (j in treemap <==> treebins[j].Node?)
    {
    }

    lemma NoLarge()
      requires Valid() && treemap == {}
      ensures forall a :: a in free ==> IsSmall(free[a])
    {
      forall a | a in free ensures IsSmall(free[a]) {
        if !IsSmall(free[a]) {
          ChunkInBin(a);
          NonEmpty(treebins[TreeIndex(free[a])], free[a]);
        }
      }
    }

    /** When no small bin from that of nb on and no tree bin is marked, all chunks are smaller. */
    lemma OnlySmaller(nb: nat)
      requires Valid() && treemap == {} && nb % 8 == 0 && forall j <- smallmap :: j < SmallIndex(nb)
      ensures forall a :: a in free ==> free[a] < nb
    {
      NoLarge();
      forall a | a in free ensures free[a] < nb {
        assert a in smallbins[free[a] / 8];
      }
    }

    /** The first marked bin that is big enough has the best fitting chunks. */
    lemma LeastSmall(i: nat, nb: nat)
      requires Valid() && i in smallmap && nb % 8 == 0 && forall j <- smallmap :: nb <= 8 * j ==> i <= j
      ensures forall a :: a in free && nb <= free[a] ==> 8 * i <= free[a]
    {
      MapFacts();
      forall a | a in free && nb <= free[a] ensures 8 * i <= free[a] {
        if IsSmall(free[a]) {
          assert a in smallbins[free[a] / 8];
        }
      }
    }

    /** When no small bin from that of nb on is marked, all small chunks are smaller. */
    lemma SmallLess(nb: nat)
      requires Valid() && nb % 8 == 0 && forall j <- smallmap :: j < SmallIndex(nb)
      ensures forall a :: a in free && IsSmall(free[a]) ==> free[a] < nb
    {
      forall a | a in free && IsSmall(free[a]) ensures free[a] < nb {
        assert a in smallbins[free[a] / 8];
      }
    }

    /** No small chunk fits exactly or with 8 bytes to spare when those two bins are not marked. */
    lemma NotExact(nb: nat)
      requires Valid() && nb % 8 == 0 && nb / 8 !in smallmap && nb / 8 + 1 !in smallmap && nb < MIN_LARGE_SIZE
      ensures forall a :: a in free && IsSmall(free[a]) && nb <= free[a] ==> nb + 8 < free[a]
    {
      forall a | a in free && nb <= free[a] && IsSmall(free[a]) ensures nb + 8 < free[a] {
        assert a in smallbins[free[a] / 8];
      }
    }

    lemma FoundInBin(idx: nat, v: Found)
      requires Valid() && idx < 32 && |treebins| == 32 && (v.Chunk? ==> In(treebins[idx], v.addr, v.size))
      ensures v.Chunk? ==> v.addr in free && free[v.addr] == v.size && !IsSmall(v.size)
    {
      assert TreeIn(treebins[idx], idx, free);
    }

    lemma IndexOfFound(idx: nat, v: Found)
      requires Valid() && idx < 32 && |treebins| == 32 && v.Chunk? && In(treebins[idx], v.addr, v.size)
      ensures TreeIndex(v.size) == idx
    {
      assert TreeIn(treebins[idx], idx, free);
    }

    lemma NothingThatBig(nb: nat)
      requires Valid() && nb >= SIZE_LIMIT
      ensures forall a :: a in free ==> free[a] < nb
    {
    }

    /** A large free chunk is in the bin of its size. */
    lemma ChunkInBin(a: nat)
      requires Valid() && |treebins| == 32 && a in free && !IsSmall(free[a])
      ensures TreeIndex(free[a]) < 32 && HasSize(treebins[TreeIndex(free[a])], free[a]) && free[a] < SIZE_LIMIT
    {
      TreeIndexBelow32(free[a]);
      assert InTree(treebins, a, free[a]);
      InHasSize(treebins[TreeIndex(free[a])], a, free[a]);
    }

    lemma LaterBin(idx: nat, i: nat, nb: nat)
      requires Valid() && |treebins| == 32 && idx == TreeIndex(nb) && idx < i < 32 && treebins[i].Node?
      ensures nb < SIZE_LIMIT ==> nb <= MinSize(treebins[i])
    {
      MinIsLeast(treebins[i], TreeBits(i), TreePrefix(i));
      var s := MinSize(treebins[i]);
      SizeHasChunk(treebins[i], TreeBits(i), TreePrefix(i), s);
      var a: nat :| In(treebins[i], a, s);
      assert TreeIn(treebins[i], i, free);
      if nb < SIZE_LIMIT && s < nb {
        TreeIndexMonotone(s, nb);
      }
    }

    lemma BestInLater(idx: nat, i: nat, v: Found, nb: nat)
      requires Valid() && |treebins| == 32 && idx == TreeIndex(nb) && idx < i < 32 && nb < SIZE_LIMIT
      requires treebins[i].Node? && nb <= MinSize(treebins[i])
      requires forall j <- treemap :: idx < j ==> i <= j
      requires forall j :: 0 <= j < 32 ==> (j in treemap <==> treebins[j].Node?)
      requires forall s: nat :: nb <= s && Beaten(s, None, treebins[i]) ==> v.Chunk? && v.size <= s
      requires forall s: nat :: HasSize(treebins[idx], s) ==> s < nb
      ensures forall a :: a in free && !IsSmall(free[a]) && nb <= free[a] ==> v.Chunk? && v.size <= free[a]
    {
      forall a | a in free && !IsSmall(free[a]) && nb <= free[a] ensures v.Chunk? && v.size <= free[a] {
        var s := free[a];
        ChunkInBin(a);
        var j := TreeIndex(s);
        TreeIndexMonotone(nb, s);
        NonEmpty(treebins[j], s);
        assert i <= j;
        LeastBelow(i, j, s);
        assert Beaten(s, None, treebins[i]);
      }
    }

    lemma NonEmpty(t: Tree, s: nat)
      requires HasSize(t, s)
      ensures t.Node?
    {
    }

    /** The smallest chunk of bin i is no larger than any chunk of bin j, for i <= j. */
    lemma LeastBelow(i: nat, j: nat, s: nat)
      requires Valid() && |treebins| == 32 && i <= j < 32 && treebins[i].Node? && HasSize(treebins[j], s)
      ensures MinSize(treebins[i]) <= s
    {
      MinIsLeast(treebins[i], TreeBits(i), TreePrefix(i));
      if i < j {
        var m := MinSize(treebins[i]);
        SizeHasChunk(treebins[i], TreeBits(i), TreePrefix(i), m);
        var a: nat :| In(treebins[i], a, m);
        SizeHasChunk(treebins[j], TreeBits(j), TreePrefix(j), s);
        var b: nat :| In(treebins[j], b, s);
        assert TreeIn(treebins[i], i, free) && TreeIn(treebins[j], j, free);
        if s < m {
          TreeIndexMonotone(s, m);
        }
      }
    }

    lemma NothingLater(idx: nat, nb: nat)
      requires Valid() && |treebins| == 32 && idx == TreeIndex(nb) && nb < SIZE_LIMIT
      requires forall j :: 0 <= j < 32 ==> (j in treemap <==> treebins[j].Node?)
      requires idx < 32 && forall j <- treemap :: j < idx + 1
      requires forall s: nat :: HasSize(treebins[idx], s) ==> s < nb
      ensures forall a :: a in free && !IsSmall(free[a]) ==> free[a] < nb
    {
      forall a | a in free && !IsSmall(free[a]) ensures free[a] < nb {
        var s := free[a];
        ChunkInBin(a);
        NonEmpty(treebins[TreeIndex(s)], s);
        if nb <= s {
          TreeIndexMonotone(nb, s);
        }
      }
    }

    lemma BestInBin(idx: nat, v0: Found, t: Tree, v: Found, nb: nat)
      requires Valid() && |treebins| == 32 && idx == TreeIndex(nb) && idx < 32 && MIN_LARGE_SIZE <= nb < SIZE_LIMIT
      requires forall s: nat :: HasSize(treebins[idx], s) && nb <= s ==> Beaten(s, v0, t)
      requires forall s: nat :: nb <= s && Beaten(s, v0, t) ==> v.Chunk? && v.size <= s
      requires v.Chunk? ==> v.addr in free && free[v.addr] == v.size
      requires v.Chunk? ==> TreeIndex(v.size) == idx
      requires v.Chunk?
      ensures forall a :: a in free && !IsSmall(free[a]) && nb <= free[a] ==> v.Chunk? && v.size <= free[a]
    {
      forall a | a in free && !IsSmall(free[a]) && nb <= free[a] ensures v.size <= free[a] {
        var s := free[a];
        ChunkInBin(a);
        TreeIndexMonotone(nb, s);
        if TreeIndex(s) != idx && s < v.size {
          TreeIndexMonotone(s, v.size);
        }
      }
    }

    /** tmalloc_small: the smallest of all large chunks. */
    method FindSmallest(nb: nat) returns (v: Found)
      requires Valid() && treemap != {} && 0 < nb < MIN_LARGE_SIZE
      ensures v.Chunk? && v.addr in free && free[v.addr] == v.size && !IsSmall(v.size)
      ensures forall a :: a in free && !IsSmall(free[a]) ==> v.size <= free[a]
    {
      hide Trie, Within, Shr, In, HasSize, TreeOk, SmallOk, SizesOk, MinSize;
      MapFacts();
      var i := NextMarked(treemap, 0);
      BinFacts(i, nb);
      BinMin(i);
      v := LeftmostScan(i, nb, None, treebins[i]);
      assert Beaten(MinSize(treebins[i]), None, treebins[i]);
      forall a | a in free && !IsSmall(free[a]) ensures v.size <= free[a] {
        ChunkInBin(a);
        NonEmpty(treebins[TreeIndex(free[a])], free[a]);
        LeastBelow(i, TreeIndex(free[a]), free[a]);
        assert Beaten(free[a], None, treebins[i]);
      }
    }

    lemma BinMin(i: nat)
      requires Valid() && i < 32 && |treebins| == 32 && treebins[i].Node?
      ensures !IsSmall(MinSize(treebins[i]))
    {
      var t := treebins[i];
      MinIsLeast(t, TreeBits(i), TreePrefix(i));
      SizeHasChunk(t, TreeBits(i), TreePrefix(i), MinSize(t));
      var a: nat :| In(t, a, MinSize(t));
      assert TreeIn(t, i, free);
    }

    /** The smallest marked index that is at least from: lj_ffs of the bits from there on. */
    method NextMarked(m: set<nat>, from: nat) returns (i: nat)
      requires forall j <- m :: j < 32
      ensures i <= 32 && (i < 32 ==> i in m && from <= i)
      ensures forall j <- m :: from <= j ==> i <= j
      ensures i == 32 ==> forall j <- m :: j < from
    {
      i := from;
      while i < 32 && i !in m
        invariant from <= i && forall j <- m :: from <= j ==> i <= j
      {
        i := i + 1;
      }
      if i > 32 {
        i := 32;
      }
    }
  }

  lemma SmallShape(m: set<nat>, bins: seq<seq<nat>>, free: map<nat, nat>)
    requires SmallOk(m, bins, free)
    ensures |bins| == 32
  {
  }

  lemma TreeShape(m: set<nat>, bins: seq<Tree>, free: map<nat, nat>)
    requires TreeOk(m, bins, free)
    ensures |bins| == 32
  {
  }
}
