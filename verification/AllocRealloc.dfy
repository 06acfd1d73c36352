/** What realloc, and clients that write to their blocks, do to the allocator state. */
module AllocRealloc {
  import opened AllocSizes
  import opened AllocShape
  import opened AllocSegments
  import opened AllocState
  import opened AllocSteps
  import opened AllocFree

  /** Byte k of the block at q is what byte k of the block at p was. */
  ghost predicate ByteKept(d: map<nat, bv8>, p: nat, d2: map<nat, bv8>, q: nat, k: nat) {
    (p + 16 + k in d <==> q + 16 + k in d2) && (p + 16 + k in d ==> d[p + 16 + k] == d2[q + 16 + k])
  }

  ghost predicate BytesKept(d: map<nat, bv8>, p: nat, d2: map<nat, bv8>, q: nat, n: nat) {
    forall k: nat {:trigger ByteKept(d, p, d2, q, k)} :: k < n ==> ByteKept(d, p, d2, q, k)
  }

  function Min(a: nat, b: nat): nat { if a < b then a else b }

  /** realloc's promise: the block at p is at q now, big enough, with its bytes up to the smaller of
      what it could hold and what is asked for, but no bigger than it has to be; no other block is
      touched, and nothing else is used up. */
  ghost predicate Moved(s: State, d: map<nat, bv8>, s2: State, d2: map<nat, bv8>, p: nat, q: nat, nsize: nat) {
    && Is(s.t, p) && s2.live == s.live - {p} + {q} && (q == p || q !in s.live) && LiveKept(s, d, s2, d2, {p})
    && Is(s2.t, q) && nsize + CHUNK_OVERHEAD <= s2.t.head[q].size && CHUNK_OVERHEAD <= s.t.head[p].size
    && BytesKept(d, p, d2, q, Min(s.t.head[p].size - CHUNK_OVERHEAD, nsize))
    && s2.t.head[q].size < Request2Size(nsize) + MIN_CHUNK_SIZE && (s2.segs == s.segs ==> NoLeak(s.t, s2.t, {q}))
  }

  lemma KeptSelf(s: State, d: map<nat, bv8>, but: set<nat>)
    requires Ok(s)
    ensures LiveKept(s, d, s, d, but)
  {
  }

  lemma MovedNot(s: State, d: map<nat, bv8>, p: nat, nsize: nat)
    requires Ok(s) && p in s.live && Is(s.t, p)
    requires Request2Size(nsize) <= s.t.head[p].size < Request2Size(nsize) + MIN_CHUNK_SIZE
    ensures Moved(s, d, s, d, p, p, nsize)
  {
    hide Ok;
    PaddedFits(nsize);
    KeptSelf(s, d, {p});
  }

  // ----- shrinking ---------------------------------------------------------------------------

  /** The chunk at p, in use, is two chunks in use now. */
  ghost predicate Splits(s: State, p: nat, nb: nat, s1: State) {
    && p in s.t.head && nb < s.t.head[p].size
    && var hi := p + s.t.head[p].size;
       && hi in s.t.head
       && s1 == s.(live := s.live + {p + nb},
                   t := Cut(s.t, Edit(p, p + nb, hi, true, true),
                            s.t.head[p := Head(nb, s.t.head[p].pinuse, true)][p + nb := Head(hi - p - nb, true, true)]
                                    [hi := s.t.head[hi].(pinuse := true)], s.t.foot))
  }

  lemma SplitOk(s: State, d: map<nat, bv8>, p: nat, nb: nat, s1: State, d1: map<nat, bv8>)
    requires Live(s, p) && Splits(s, p, nb, s1) && nb % 8 == 0 && MIN_CHUNK_SIZE <= nb
             && nb + MIN_CHUNK_SIZE <= s.t.head[p].size
    requires forall x: nat {:trigger Same(d, d1, x)} ::
               !(p + 8 <= x < p + 16) && !(p + nb + 8 <= x < p + s.t.head[p].size + 16) ==> Same(d, d1, x)
    ensures Ok(s1) && Is(s.t, p) && s1.live == s.live + {p + nb} && p + nb !in s.live && LiveKept(s, d, s1, d1, {p})
    ensures Is(s1.t, p) && s1.t.head[p].size == nb && p in s1.live && BytesKept(d, p, d1, p, nb - CHUNK_OVERHEAD)
  {
    hide Ok, Shape, SegsOk, Edits, Edited, PoolStep, Held, Pool, Run, Cut, Same, LiveKept, BytesKept, FreeAgree;
    OkParts(s);
    PrevFacts(s, p);
    var hi := Next(s.t, p);
    var e := Edit(p, p + nb, hi, true, true);
    LiveAlone(s, p);
    SplitUsed(s.t, p, nb);
    TopNot(s, e, s1);
    UsedPool(s, p, e, s1);
    StepOk(s, e, s1);
    EditSpares(s, d, e, s1, d1, {p});
    OkParts(s1);
    EditedAt(s.t, e, s1.t);
    FrontBytes(d, p, d1, nb - CHUNK_OVERHEAD);
  }

  lemma SplitUse(s: State, p: nat, nb: nat, s1: State)
    requires Live(s, p) && Splits(s, p, nb, s1) && nb % 8 == 0 && MIN_CHUNK_SIZE <= nb
             && nb + MIN_CHUNK_SIZE <= s.t.head[p].size
    ensures NoLeak(s.t, s1.t, {p, p + nb})
  {
    hide Ok, Shape, Edits, Edited, Held, Run, Cut, NoLeak;
    OkParts(s);
    PrevFacts(s, p);
    var e := Edit(p, p + nb, Next(s.t, p), true, true);
    SplitUsed(s.t, p, nb);
    EditUse(s.t, e, s1.t);
    assert {e.lo} + {e.cut} == {p, p + nb};
  }

  lemma FrontBytes(d: map<nat, bv8>, p: nat, d1: map<nat, bv8>, n: nat)
    requires forall x: nat {:trigger Same(d, d1, x)} :: p + 16 <= x < p + n + 16 ==> Same(d, d1, x)
    ensures BytesKept(d, p, d1, p, n)
  {
    forall k: nat | k < n ensures ByteKept(d, p, d1, p, k) {
      assert Same(d, d1, p + 16 + k);
    }
  }

  lemma TopNot(s: State, e: Edit, s1: State)
    requires Ok(s) && e.lo in s.live && Is(s.t, e.lo) && e.hi == Next(s.t, e.lo)
    ensures !MovesTop(s.t, e)
  {
    PrevFacts(s, e.lo);
  }

  /** No other chunk starts in a live one. */
  lemma LiveAlone(s: State, p: nat)
    requires Live(s, p) && Is(s.t, p)
    ensures forall a <- s.live :: a != p ==> !(p <= a < Next(s.t, p))
    ensures forall a :: a in Pool(s) ==> !(p <= a < Next(s.t, p))
  {
    hide SegsOk, Pool, Tiled, Apart, BitsAgree, FeetAgree, EndsOk, TopOk;
    forall a | a in s.live && a != p && p <= a < Next(s.t, p) ensures false {
      NoneInside(s.t, p, a);
    }
    forall a | a in Pool(s) && p <= a < Next(s.t, p) ensures false {
      PoolChunk(s, a);
      NoneInside(s.t, p, a);
    }
  }

  lemma UsedPool(s: State, p: nat, e: Edit, s1: State)
    requires Live(s, p) && Is(s.t, p) && e.lo == p && e.hi == Next(s.t, p) && e.used2
    requires s1.free == s.free && s1.dv == s.dv && s1.dvsize == s.dvsize
    ensures PoolStep(s.t, e, Pool(s), Pool(s1)) && DvOk(s1)
  {
    hide Shape, SegsOk, FreeAgree, Pool;
    LiveAlone(s, p);
    PoolSame(s, s1);
  }

  lemma PoolSame(s: State, s1: State)
    requires s1.free == s.free && s1.dv == s.dv && s1.dvsize == s.dvsize
    ensures Pool(s1) == Pool(s)
  {
  }

  /** A shrunk block: split, and the rest released. */
  lemma Shrunk(s: State, d: map<nat, bv8>, s1: State, d1: map<nat, bv8>, s2: State, d2: map<nat, bv8>, p: nat, nb: nat,
               nsize: nat)
    requires Live(s, p) && Is(s.t, p) && nb == Request2Size(nsize) <= s.t.head[p].size && s1.live == s.live + {p + nb}
             && p + nb !in s.live
    requires LiveKept(s, d, s1, d1, {p}) && Is(s1.t, p) && s1.t.head[p].size == nb && p in s1.live
             && BytesKept(d, p, d1, p, nb - CHUNK_OVERHEAD)
    requires Released(s1, d1, s2, d2, p + nb) && NoLeak(s.t, s1.t, {p, p + nb})
    ensures Moved(s, d, s2, d2, p, p, nsize)
  {
    hide Ok, FreeAround;
    PaddedFits(nsize);
    assert p != p + nb;
    assert KeptAt(s1, d1, s2, d2, p);
    assert s2.live == s.live - {p} + {p};
    ShrunkOthers(s, d, s1, d1, s2, d2, p, p + nb);
    ShrunkBytes(d, d1, d2, p, nb, Min(s.t.head[p].size - CHUNK_OVERHEAD, nsize));
  }

  lemma ShrunkOthers(s: State, d: map<nat, bv8>, s1: State, d1: map<nat, bv8>, s2: State, d2: map<nat, bv8>, p: nat,
                     r: nat)
    requires LiveKept(s, d, s1, d1, {p}) && LiveKept(s1, d1, s2, d2, {r}) && r !in s.live
    ensures LiveKept(s, d, s2, d2, {p})
  {
    forall a | a in s.live && a != p ensures KeptAt(s, d, s2, d2, a) {
      assert KeptAt(s, d, s1, d1, a) && KeptAt(s1, d1, s2, d2, a);
      forall x: nat | InPayload(a, s.t.head[a].size, x) ensures Same(d, d2, x) {
        assert Same(d, d1, x) && Same(d1, d2, x);
      }
    }
  }

  lemma ShrunkBytes(d: map<nat, bv8>, d1: map<nat, bv8>, d2: map<nat, bv8>, p: nat, nb: nat, n: nat)
    requires nb >= CHUNK_OVERHEAD && n <= nb - CHUNK_OVERHEAD && BytesKept(d, p, d1, p, nb - CHUNK_OVERHEAD)
             && SamePayload(d1, d2, p, nb)
    ensures BytesKept(d, p, d2, p, n)
  {
    forall k: nat | k < n ensures ByteKept(d, p, d2, p, k) {
      assert Same(d1, d2, p + 16 + k) && ByteKept(d, p, d1, p, k);
    }
  }

  // ----- growing into top ----------------------------------------------------------------------

  ghost predicate GrowsUp(s: State, p: nat, nb: nat, s2: State) {
    && p in s.t.head && p + nb < s.t.top + s.topsize
    && var hi := s.t.top + s.topsize;
       s2 == s.(topsize := hi - p - nb,
                t := Cut(s.t, Edit(p, p + nb, hi, true, false),
                         s.t.head[p := Head(nb, s.t.head[p].pinuse, true)][p + nb := Head(hi - p - nb, true, false)],
                             s.t.foot))
  }

  lemma GrowOk(s: State, d: map<nat, bv8>, p: nat, nb: nat, nsize: nat, s2: State, d2: map<nat, bv8>)
    requires Live(s, p) && GrowsUp(s, p, nb, s2) && nb == Request2Size(nsize) && p + s.t.head[p].size == s.t.top
             && s.t.head[p].size < nb
    requires forall x: nat {:trigger Same(d, d2, x)} :: !(p + 8 <= x < p + 16) && !(p + nb + 8 <= x < p + nb + 16) ==>
               Same(d, d2, x)
    ensures Ok(s2) && Moved(s, d, s2, d2, p, p, nsize)
  {
    hide Ok, Shape, SegsOk, Edits, Edited, PoolStep, Held, Pool, Run, Cut, Same, LiveKept, BytesKept, FreeAgree;
    OkParts(s);
    PaddedFits(nsize);
    PrevFacts(s, p);
    TopFacts(s);
    var hi := Next(s.t, s.t.top);
    var e := Edit(p, p + nb, hi, true, false);
    LiveAlone(s, p);
    OkSegs(s);
    HeldJoins(s.segs, p, s.t.top, hi);
    GrowIntoTop(s.t, p, nb);
    GrowPool(s, p, e, s2);
    StepOk(s, e, s2);
    EditSpares(s, d, e, s2, d2, {p});
    OkParts(s2);
    EditedAt(s.t, e, s2.t);
    EditUse(s.t, e, s2.t);
    FrontBytes(d, p, d2, Min(s.t.head[p].size - CHUNK_OVERHEAD, nsize));
    assert s2.live == s.live - {p} + {p};
  }

  lemma OkSegs(s: State)
    requires Ok(s)
    ensures SegmentsApart(s.segs)
  {
  }

  lemma GrowPool(s: State, p: nat, e: Edit, s2: State)
    requires Live(s, p) && Is(s.t, p) && Next(s.t, p) == s.t.top && e.lo == p && e.hi == s.t.top + s.topsize
    requires s2.free == s.free && s2.dv == s.dv && s2.dvsize == s.dvsize
    ensures PoolStep(s.t, e, Pool(s), Pool(s2)) && DvOk(s2)
  {
    hide Shape, SegsOk, FreeAgree, Pool;
    LiveAlone(s, p);
    PoolSame(s, s2);
    TopFacts(s);
    forall a | a in Pool(s) && e.lo <= a < e.hi ensures false {
      PoolChunk(s, a);
      TopAlone(s, a);
    }
  }

  lemma TopAlone(s: State, a: nat)
    requires Ok(s) && Is(s.t, a) && s.t.top <= a < s.t.top + s.topsize
    ensures a == s.t.top
  {
    NoneInside(s.t, s.t.top, a);
  }

  // ----- moving ----------------------------------------------------------------------------------

  /** memcpy of n bytes from the payload of p to that of q. */
  function Copied(d: map<nat, bv8>, p: nat, q: nat, n: nat): map<nat, bv8> {
    if n == 0 then d
    else
      var c := Copied(d, p, q, n - 1);
      if p + 15 + n in d then c[q + 15 + n := d[p + 15 + n]] else c - {q + 15 + n}
  }

  /** The block was granted at q, filled, and released at p. */
  lemma MovedTo(s: State, d: map<nat, bv8>, s1: State, d1: map<nat, bv8>, s2: State, d2: map<nat, bv8>, p: nat, q: nat,
                nsize: nat)
    requires Live(s, p) && Is(s.t, p) && Granted(s, d, s1, d1, q, Request2Size(nsize))
             && CHUNK_OVERHEAD <= s.t.head[p].size
    requires Ok(s1) && Released(s1, Copied(d1, p, q, Min(s.t.head[p].size - CHUNK_OVERHEAD, nsize)), s2, d2, p)
             && s2.segs == s1.segs
    ensures Moved(s, d, s2, d2, p, q, nsize)
  {
    hide Ok, FreeAround, Copied;
    PaddedFits(nsize);
    var n := Min(s.t.head[p].size - CHUNK_OVERHEAD, nsize);
    var dc := Copied(d1, p, q, n);
    assert q in s1.live && q != p && KeptAt(s1, dc, s2, d2, q);
    assert s2.live == s.live - {p} + {q};
    assert KeptAt(s, d, s1, d1, p);
    forall k: nat | k < n ensures ByteKept(d, p, d2, q, k) {
      CopiedAt(d1, p, q, n, q + 16 + k);
      assert Same(d, d1, p + 16 + k) && Same(dc, d2, q + 16 + k);
    }
    forall a | a in s.live && a != p ensures KeptAt(s, d, s2, d2, a) {
      assert KeptAt(s, d, s1, d1, a) && KeptAt(s1, dc, s2, d2, a);
      MovedOthers(s1, d1, p, q, n, a);
      forall x: nat | InPayload(a, s.t.head[a].size, x) ensures Same(d, d2, x) {
        assert Same(d, d1, x) && Same(d1, dc, x) && Same(dc, d2, x);
      }
    }
  }

  lemma {:induction false} CopiedAt(d: map<nat, bv8>, p: nat, q: nat, n: nat, x: nat)
    ensures if q + 16 <= x < q + 16 + n
            then (x in Copied(d, p, q, n) <==> p + (x - q) in d)
                && (p + (x - q) in d ==> Copied(d, p, q, n)[x] == d[p + (x - q)])
            else Same(d, Copied(d, p, q, n), x)
    decreases n
  {
    if n > 0 {
      CopiedAt(d, p, q, n - 1, x);
    }
  }

  /** Copying into the payload of q changes no other payload. */
  lemma MovedOthers(s: State, d: map<nat, bv8>, p: nat, q: nat, n: nat, a: nat)
    requires Ok(s) && q in s.live && a in s.live && a != q && Is(s.t, q) && Is(s.t, a)
             && n + CHUNK_OVERHEAD <= s.t.head[q].size
    ensures SamePayload(d, Copied(d, p, q, n), a, s.t.head[a].size)
  {
    hide Ok, Copied;
    forall x: nat | InPayload(a, s.t.head[a].size, x) ensures Same(d, Copied(d, p, q, n), x) {
      PayloadsDisjoint(s, a, q, x);
      CopiedAt(d, p, q, n, x);
    }
  }

  // ----- clients write to their blocks -----------------------------------------------------------

  /** A client's byte at x lies in what would be the head word of one chunk address and the foot
      word of the next: h and f are what these words read as then. */
  ghost function Scribbled(s: State, x: nat, h: Head, f: nat): State
    requires x >= 16
  {
    s.(t := s.t.(head := s.t.head[x / 8 * 8 - 8 := h], foot := s.t.foot[x / 8 * 8 := f]))
  }

  /** It is inside the client's chunk, so the allocator does not rely on these words. */
  lemma ScribbleOk(s: State, p: nat, x: nat, h: Head, f: nat)
    requires Live(s, p) && Is(s.t, p) && InPayload(p, s.t.head[p].size, x)
    ensures var s2 := Scribbled(s, x, h, f);
            && Ok(s2) && s2.live == s.live
            && (forall a <- s.live :: Is(s.t, a) && Is(s2.t, a) && s2.t.head[a].size == s.t.head[a].size)
  {
    hide Ok, Shape, SegsOk, Edits, Edited, PoolStep, Held, Pool, Run, FreeAgree, LiveKept;
    OkParts(s);
    PrevFacts(s, p);
    ChunkFacts(s.t, p);
    var hi := Next(s.t, p);
    var e := Edit(p, hi, hi, true, true);
    var s2 := Scribbled(s, x, h, f);
    LiveAlone(s, p);
    TopNot(s, e, s2);
    assert p < x / 8 * 8 - 8 < hi && p < x / 8 * 8 <= hi;
    Rewritten(s.t, p, s2.t);
    UsedPool(s, p, e, s2);
    StepOk(s, e, s2);
    EditSpares(s, map[], e, s2, map[], {p});
    OkParts(s2);
    EditedAt(s.t, e, s2.t);
    forall a | a in s.live ensures Is(s.t, a) && Is(s2.t, a) && s2.t.head[a].size == s.t.head[a].size {
      KeptFor(s, s2, p, a);
    }
  }

  lemma KeptFor(s: State, s2: State, p: nat, a: nat)
    requires LiveKept(s, map[], s2, map[], {p}) && a in s.live && Is(s.t, p) && Is(s2.t, p)
             && s2.t.head[p].size == s.t.head[p].size
    ensures Is(s.t, a) && Is(s2.t, a) && s2.t.head[a].size == s.t.head[a].size
  {
    if a != p {
      assert KeptAt(s, map[], s2, map[], a);
    }
  }

  /** Words inside a chunk in use may be anything. */
  lemma Rewritten(t: Tags, p: nat, t2: Tags)
    requires Shape(t) && Is(t, p) && t.head[p].cinuse && p != t.top
    requires t2.starts == t.starts && t2.ends == t.ends && t2.top == t.top
    requires forall b: nat {:trigger b in t2.head} {:trigger b in t.head} :: b in t.head && !(p < b < Next(t, p)) ==>
               b in t2.head && t2.head[b] == t.head[b]
    requires forall b: nat {:trigger b in t2.foot} {:trigger b in t.foot} :: b in t.foot && !(p < b <= Next(t, p)) ==>
               b in t2.foot && t2.foot[b] == t.foot[b]
    ensures var e := Edit(p, Next(t, p), Next(t, p), true, true); Edits(t, e) && Edited(t, e, t2)
  {
    hide Shape;
    ChunkFacts(t, p);
    TopIs(t);
    var e := Edit(p, Next(t, p), Next(t, p), true, true);
    WholeStarts(t, p, e);
    assert CutStarts(t.starts, e) == t.starts;
    forall b: nat ensures b in t2.starts <==> if e.lo <= b < e.hi then b == e.lo || b == e.cut else b in t.starts {
      assert b in t.starts <==> b in CutStarts(t.starts, e);
    }
  }
}
