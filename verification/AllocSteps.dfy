/** What each write sequence of malloc and free makes of the allocator state. */
module AllocSteps {
  import opened AllocSizes
  import opened AllocShape
  import opened AllocSegments
  import opened AllocState

  /** The byte addresses from lo up to hi. */
  function Span(lo: nat, hi: nat): (r: set<nat>)
    decreases hi - lo
    ensures forall x: nat :: x in r <==> lo <= x < hi
  {
    if lo < hi then {lo} + Span(lo + 1, hi) else {}
  }

  /** No chunk starts inside another. */
  lemma NoneInside(t: Tags, p: nat, a: nat)
    requires Shape(t) && Is(t, p) && Is(t, a) && p <= a < Next(t, p)
    ensures a == p
  {
    assert Border(t, a);
  }

  lemma WholeStarts(t: Tags, p: nat, e: Edit)
    requires Shape(t) && Is(t, p) && e.lo == p && e.cut == e.hi == Next(t, p)
    ensures CutStarts(t.starts, e) == t.starts
  {
    forall x | x in t.starts && e.lo <= x < e.hi ensures x == p {
      assert Is(t, x);
      NoneInside(t, p, x);
    }
    assert e.lo in t.starts;
  }

  lemma PoolAlone(s: State, p: nat)
    requires Ok(s) && p in Pool(s)
    ensures forall a :: a in Pool(s) && p <= a < p + Pool(s)[p] ==> a == p
  {
    hide Tiled, Apart, BitsAgree, FeetAgree, EndsOk, TopOk, SegsOk, Pool;
    PoolSizes(s, p);
    forall a | a in Pool(s) && p <= a < p + Pool(s)[p] ensures a == p {
      PoolSizes(s, a);
      NoneInside(s.t, p, a);
    }
  }

  /** The pool without the chunk p, and with the free chunk that the edit leaves, if any. */
  lemma PoolWithout(s: State, p: nat, e: Edit, pool2: map<nat, nat>)
    requires Ok(s) && p in Pool(s) && e.lo == p && e.hi == p + Pool(s)[p]
    requires pool2 == if e.used2 then Pool(s) - {p} else (Pool(s) - {p})[Last(e) := e.hi - Last(e)]
    requires e.lo < e.cut <= e.hi && !MovesTop(s.t, e)
    ensures PoolStep(s.t, e, Pool(s), pool2)
  {
    hide Ok, Pool, PoolStep, MovesTop, Last;
    PoolAlone(s, p);
    PoolCut(s.t, p, e, Pool(s), pool2);
  }

  lemma PoolCut(t: Tags, p: nat, e: Edit, pool: map<nat, nat>, pool2: map<nat, nat>)
    requires p in pool && e.lo == p && (forall a :: a in pool && p <= a < e.hi ==> a == p)
    requires pool2 == if e.used2 then pool - {p} else (pool - {p})[Last(e) := e.hi - Last(e)]
    requires e.lo < e.cut <= e.hi && !MovesTop(t, e)
    ensures PoolStep(t, e, pool, pool2)
  {
    hide MovesTop;
    assert e.lo <= Last(e) < e.hi;
    hide Last;
  }

  // ----- malloc ---------------------------------------------------------------------------

  lemma CarveFacts(s: State, p: nat)
    requires Ok(s) && p in Pool(s)
    ensures var n := Pool(s)[p];
            && Free(s.t, p) && p != s.t.top && s.t.head[p].size == n && p + n in s.t.head && Border(s.t, p + n)
            && p !in s.live
            && n % 8 == 0 && MIN_CHUNK_SIZE <= n < SIZE_LIMIT && p % 8 == 0 && !(p < s.t.top < p + n)
            && Held(s.segs, p, p + n)
    ensures forall a <- s.live :: Is(s.t, a) && !(p <= a < p + Pool(s)[p])
  {
    hide Held, SegsOk, Tiled, Apart, BitsAgree, FeetAgree, EndsOk, TopOk;
    PoolSizes(s, p);
    ChunkFacts(s.t, p);
    HeldLimit(s.segs, s.t, p);
    forall a | a in s.live ensures Is(s.t, a) && !(p <= a < p + Pool(s)[p]) {
      if p <= a < p + Pool(s)[p] {
        NoneInside(s.t, p, a);
      }
    }
  }

  ghost function WholeTaken(s: State, p: nat): State
    requires p in s.free && p + s.free[p] in s.t.head
  {
    var hi := p + s.free[p];
    s.(free := s.free - {p}, live := s.live + {p},
       t := s.t.(head := s.t.head[p := Head(s.free[p], true, true)][hi := s.t.head[hi].(pinuse := true)]))
  }

  lemma CarvedWhole(s: State, d: map<nat, bv8>, s2: State, d2: map<nat, bv8>, p: nat)
    requires Ok(s) && p in s.free && p + s.free[p] in s.t.head && s2 == WholeTaken(s, p)
    requires d2 == d - Span(p + 8, p + 16) - Span(p + s.free[p] + 8, p + s.free[p] + 16)
    ensures Ok(s2) && Granted(s, d, s2, d2, p, s.free[p]) && s2.t.head[p].size == s.free[p]
  {
    hide Shape, SegsOk, FreeAgree, Edits, Edited, PoolStep, Held, Span;
    var n := s.free[p];
    var e := Edit(p, p + n, p + n, true, true);
    assert Pool(s)[p] == n;
    CarveFacts(s, p);
    TakeWhole(s.t, p);
    WholeStarts(s.t, p, e);
    assert s2.t == Cut(s.t, e, s2.t.head, s2.t.foot);
    assert Pool(s2) == Pool(s) - {p};
    PoolWithout(s, p, e, Pool(s2));
    StepOk(s, e, s2);
    EditSpares(s, d, e, s2, d2, {});
    EditedAt(s.t, e, s2.t);
    EditUse(s.t, e, s2.t);
  }

  /** n bytes of p are taken; the rest is the new dv (then the old one is binned) or binned. */
  ghost function FrontTaken(s: State, p: nat, nb: nat, toDv: bool): State
    requires p in s.free && nb <= s.free[p]
  {
    var n := s.free[p];
    var r := p + nb;
    var t := Cut(s.t, Edit(p, r, p + n, true, false),
                 s.t.head[p := Head(nb, true, true)][r := Head(n - nb, true, false)], s.t.foot[p + n := n - nb]);
    if toDv then
      s.(t := t, free := Pool(s.(free := s.free - {p})), dv := r, dvsize := n - nb, live := s.live + {p})
    else
      s.(t := t, free := (s.free - {p})[r := n - nb], live := s.live + {p})
  }

  lemma CarvedFront(s: State, d: map<nat, bv8>, s2: State, d2: map<nat, bv8>, p: nat, nb: nat, toDv: bool)
    requires Ok(s) && p in s.free && nb % 8 == 0 && MIN_CHUNK_SIZE <= nb && nb + MIN_CHUNK_SIZE <= s.free[p]
    requires s2 == FrontTaken(s, p, nb, toDv)
    requires d2 == d - Span(p + 8, p + 16) - Span(p + nb + 8, p + nb + 16) - Span(p + s.free[p], p + s.free[p] + 8)
    ensures Ok(s2) && Granted(s, d, s2, d2, p, nb)
  {
    hide Shape, SegsOk, FreeAgree, Edits, Edited, PoolStep, Held, Span;
    var n := s.free[p];
    var e := Edit(p, p + nb, p + n, true, false);
    assert Pool(s)[p] == n;
    CarveFacts(s, p);
    TakeFront(s.t, p, nb);
    FrontPool(s, p, nb, toDv);
    PoolWithout(s, p, e, Pool(s2));
    StepOk(s, e, s2);
    EditSpares(s, d, e, s2, d2, {});
    EditedAt(s.t, e, s2.t);
    EditUse(s.t, e, s2.t);
  }

  lemma FrontPool(s: State, p: nat, nb: nat, toDv: bool)
    requires Ok(s) && p in s.free && MIN_CHUNK_SIZE <= nb && nb + MIN_CHUNK_SIZE <= s.free[p]
    ensures var s2 := FrontTaken(s, p, nb, toDv);
            && Pool(s2) == (Pool(s) - {p})[p + nb := s.free[p] - nb]
            && DvOk(s2)
  {
    hide Ok, FrontTaken, Pool;
    DvApart(s);
    InPool(s, p);
    PoolAlone(s, p);
    FrontPoolIs(s, p, nb, toDv);
  }

  lemma DvApart(s: State)
    requires Ok(s)
    ensures (s.dvsize != 0 ==> s.dv !in s.free) && DvOk(s)
  {
  }

  lemma InPool(s: State, p: nat)
    requires s.dvsize != 0 ==> s.dv !in s.free
    ensures p in s.free ==> p in Pool(s) && Pool(s)[p] == s.free[p]
    ensures s.dvsize != 0 ==> s.dv in Pool(s) && Pool(s)[s.dv] == s.dvsize
  {
  }

  lemma FrontPoolIs(s: State, p: nat, nb: nat, toDv: bool)
    requires p in s.free && MIN_CHUNK_SIZE <= nb && nb + MIN_CHUNK_SIZE <= s.free[p] && DvOk(s)
    requires p in Pool(s) && forall a :: a in Pool(s) && p <= a < p + Pool(s)[p] ==> a == p
    ensures var s2 := FrontTaken(s, p, nb, toDv);
            && Pool(s2) == (Pool(s) - {p})[p + nb := s.free[p] - nb]
            && DvOk(s2)
  {
    hide Cut;
    assert p + nb !in Pool(s);
    assert s.dvsize != 0 ==> s.dv in Pool(s) && s.dv != p + nb && s.dv != p;
  }

  lemma EditedAt(t: Tags, e: Edit, t2: Tags)
    requires Shape(t) && Edits(t, e) && Edited(t, e, t2)
    ensures Is(t2, e.lo) && t2.head[e.lo].size == e.cut - e.lo
  {
    EditFacts(t, e, t2);
    NewChunks(t, e, t2, e.lo);
  }

  /** What is in use after an edit: what it says of its space, and what was in use elsewhere. */
  lemma EditUse(t: Tags, e: Edit, t2: Tags)
    requires Shape(t) && Edits(t, e) && Edited(t, e, t2)
    ensures NoLeak(t, t2, (if e.used1 then {e.lo} else {}) + (if e.used2 then {e.cut} else {}))
    ensures !e.used1 && Is(t2, e.lo) ==> !t2.head[e.lo].cinuse
  {
    hide Edited, Edits, BitsAgree, FeetAgree, TopOk;
    EditFacts(t, e, t2);
    forall a: nat | Is(t2, a) && t2.head[a].cinuse
      ensures (Is(t, a) && t.head[a].cinuse) || (a == e.lo && e.used1) || (a == e.cut && e.used2) {
      if e.lo <= a < e.hi {
        NewChunks(t, e, t2, a);
      } else {
        Kept(t, e, t2, a);
      }
    }
    NewChunks(t, e, t2, e.lo);
  }

  /** The whole of dv is taken. */
  ghost function DvTaken(s: State): State
    requires s.dv + s.dvsize in s.t.head
  {
    var hi := s.dv + s.dvsize;
    s.(dv := 0, dvsize := 0, live := s.live + {s.dv},
       t := s.t.(head := s.t.head[s.dv := Head(s.dvsize, true, true)][hi := s.t.head[hi].(pinuse := true)]))
  }

  lemma TookDv(s: State, d: map<nat, bv8>, s2: State, d2: map<nat, bv8>)
    requires Ok(s) && s.dvsize != 0 && s.dv + s.dvsize in s.t.head && s2 == DvTaken(s)
    requires d2 == d - Span(s.dv + 8, s.dv + 16) - Span(s.dv + s.dvsize + 8, s.dv + s.dvsize + 16)
    ensures Ok(s2) && Granted(s, d, s2, d2, s.dv, s.dvsize) && s2.t.head[s.dv].size == s.dvsize
  {
    hide Shape, SegsOk, FreeAgree, Edits, Edited, PoolStep, Held, Span;
    var p, n := s.dv, s.dvsize;
    var e := Edit(p, p + n, p + n, true, true);
    InPool(s, p);
    CarveFacts(s, p);
    TakeWhole(s.t, p);
    WholeStarts(s.t, p, e);
    assert s2.t == Cut(s.t, e, s2.t.head, s2.t.foot);
    assert Pool(s2) == Pool(s) - {p};
    PoolWithout(s, p, e, Pool(s2));
    StepOk(s, e, s2);
    EditSpares(s, d, e, s2, d2, {});
    EditedAt(s.t, e, s2.t);
    EditUse(s.t, e, s2.t);
  }

  /** The front of dv is taken. */
  ghost function DvFrontTaken(s: State, nb: nat): State
    requires nb <= s.dvsize
  {
    var r := s.dv + nb;
    var n := s.dvsize;
    s.(dv := r, dvsize := n - nb, live := s.live + {s.dv},
       t := Cut(s.t, Edit(s.dv, r, s.dv + n, true, false),
                s.t.head[s.dv := Head(nb, true, true)][r := Head(n - nb, true, false)],
                s.t.foot[s.dv + n := n - nb]))
  }

  lemma TookDvFront(s: State, d: map<nat, bv8>, s2: State, d2: map<nat, bv8>, nb: nat)
    requires Ok(s) && nb % 8 == 0 && MIN_CHUNK_SIZE <= nb && nb + MIN_CHUNK_SIZE <= s.dvsize
             && s2 == DvFrontTaken(s, nb)
    requires d2 == d - Span(s.dv + 8, s.dv + 16) - Span(s.dv + nb + 8, s.dv + nb + 16)
             - Span(s.dv + s.dvsize, s.dv + s.dvsize + 8)
    ensures Ok(s2) && Granted(s, d, s2, d2, s.dv, nb)
  {
    hide Shape, SegsOk, FreeAgree, Edits, Edited, PoolStep, Held, Span;
    var p, n := s.dv, s.dvsize;
    var e := Edit(p, p + nb, p + n, true, false);
    InPool(s, p);
    CarveFacts(s, p);
    TakeFront(s.t, p, nb);
    DvFrontPool(s, nb);
    PoolWithout(s, p, e, Pool(s2));
    StepOk(s, e, s2);
    EditSpares(s, d, e, s2, d2, {});
    EditedAt(s.t, e, s2.t);
    EditUse(s.t, e, s2.t);
  }

  lemma DvFrontPool(s: State, nb: nat)
    requires Ok(s) && MIN_CHUNK_SIZE <= nb < s.dvsize
    ensures Pool(DvFrontTaken(s, nb)) == (Pool(s) - {s.dv})[s.dv + nb := s.dvsize - nb] && s.dv + nb !in s.free
  {
    hide Ok, Cut;
    DvApart(s);
    InPool(s, s.dv);
    PoolAlone(s, s.dv);
    InPool(s, s.dv + nb);
  }

  /** The front of top is taken. */
  ghost function TopTaken(s: State, nb: nat): State
    requires nb <= s.topsize
  {
    var r := s.t.top + nb;
    var n := s.topsize;
    s.(topsize := n - nb, live := s.live + {s.t.top},
       t := Cut(s.t, Edit(s.t.top, r, s.t.top + n, true, false),
                s.t.head[r := Head(n - nb, true, false)][s.t.top := Head(nb, true, true)],
                s.t.foot))
  }

  lemma TookTop(s: State, d: map<nat, bv8>, s2: State, d2: map<nat, bv8>, nb: nat)
    requires Ok(s) && nb % 8 == 0 && MIN_CHUNK_SIZE <= nb && nb < s.topsize && s2 == TopTaken(s, nb)
    requires d2 == d - Span(s.t.top + nb + 8, s.t.top + nb + 16) - Span(s.t.top + 8, s.t.top + 16)
    ensures Ok(s2) && Granted(s, d, s2, d2, s.t.top, nb)
  {
    hide Shape, FreeAgree, Edits, Edited, PoolStep, Held, Span, SegmentsApart, BasesOk, AllHeld, TopLast;
    var p, n := s.t.top, s.topsize;
    var e := Edit(p, p + nb, p + n, true, false);
    TopFacts(s);
    TakeTop(s.t, nb);
    TopPool(s, p, e, s2);
    StepOk(s, e, s2);
    EditSpares(s, d, e, s2, d2, {});
    EditedAt(s.t, e, s2.t);
    EditUse(s.t, e, s2.t);
  }

  lemma TopFacts(s: State)
    requires Ok(s)
    ensures Free(s.t, s.t.top) && s.topsize == s.t.head[s.t.top].size && s.t.top !in Pool(s)
    ensures s.topsize % 8 == 0 && 8 <= s.topsize < SIZE_LIMIT && s.t.top % 8 == 0
            && Held(s.segs, s.t.top, s.t.top + s.topsize)
    ensures forall a <- s.live :: Is(s.t, a) && !(s.t.top <= a < s.t.top + s.topsize)
  {
    hide Held, Tiled, Apart, BitsAgree, FeetAgree, EndsOk, Pool;
    ChunkFacts(s.t, s.t.top);
    HeldLimit(s.segs, s.t, s.t.top);
    forall a | a in s.live ensures Is(s.t, a) && !(s.t.top <= a < s.t.top + s.topsize) {
      if s.t.top <= a < s.t.top + s.topsize {
        NoneInside(s.t, s.t.top, a);
      }
    }
  }

  /** The pool has nothing of top. */
  lemma TopPool(s: State, p: nat, e: Edit, s2: State)
    requires Ok(s) && p == s.t.top && e.lo == p && e.hi == p + s.topsize && e.lo < e.cut <= e.hi
    requires Pool(s2) == Pool(s)
    ensures PoolStep(s.t, e, Pool(s), Pool(s2))
  {
    forall a | a in Pool(s) && e.lo <= a < e.hi ensures false {
      assert Is(s.t, a);
      NoneInside(s.t, p, a);
    }
  }
}
