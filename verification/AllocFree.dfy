/** What free does to the allocator state: the chunk joins with free neighbours. */
module AllocFree {
  import opened AllocSizes
  import opened AllocShape
  import opened AllocSegments
  import opened AllocState
  import opened AllocSteps

  /** free's promise: the chunk at p is the client's no more, no other is touched, and its space is
      in a free chunk; nothing comes into use. */
  ghost predicate Released(s: State, d: map<nat, bv8>, s2: State, d2: map<nat, bv8>, p: nat) {
    && Is(s.t, p) && s2.live == s.live - {p} && LiveKept(s, d, s2, d2, {p})
    && FreeAround(s2.t, p, Next(s.t, p))
    && NoLeak(s.t, s2.t, {}) && (Is(s2.t, p) ==> !s2.t.head[p].cinuse)
  }

  /** Some free chunk covers the space from lo to hi. */
  ghost predicate FreeAround(t: Tags, lo: nat, hi: nat) {
    exists a: nat :: Free(t, a) && a <= lo && hi <= Next(t, a)
  }

  ghost predicate Live(s: State, p: nat) { Ok(s) && p in s.live }

  /** A live chunk, and the free chunk that a clear PINUSE bit promises before it. */
  lemma PrevFacts(s: State, p: nat)
    requires Live(s, p)
    ensures Is(s.t, p) && s.t.head[p].cinuse && p != s.t.top && p !in Pool(s) && p % 8 == 0
            && MIN_CHUNK_SIZE <= s.t.head[p].size
    ensures Next(s.t, p) in s.t.head && s.t.head[Next(s.t, p)].pinuse && !(p < s.t.top < Next(s.t, p))
    ensures Run(s.t, p, Next(s.t, p)) && Held(s.segs, p, Next(s.t, p))
    ensures !s.t.head[p].pinuse ==> p in s.t.foot && s.t.foot[p] <= p
    ensures !s.t.head[p].pinuse ==> var q := p - s.t.foot[p];
              && q in Pool(s) && Pool(s)[q] == s.t.foot[p] && q + s.t.foot[p] == p && MIN_CHUNK_SIZE <= s.t.foot[p]
              && Is(s.t, q)
              && s.t.head[q].pinuse && !(q <= s.t.top < p) && Run(s.t, q, p) && Held(s.segs, q, p)
  {
    hide BitsAgree, Tiled, Apart, EndsOk, Held, SegmentsApart, AllHeld, BasesOk, TopLast, Pool, BackAt, Run, FootAt;
    LiveFacts(s, p);
    HeldLimit(s.segs, s.t, p);
    if !s.t.head[p].pinuse {
      BackFacts(s, p);
    }
  }

  lemma LiveFacts(s: State, p: nat)
    requires Live(s, p)
    ensures Is(s.t, p) && s.t.head[p].cinuse && p != s.t.top && p !in Pool(s) && p % 8 == 0
            && MIN_CHUNK_SIZE <= s.t.head[p].size
    ensures Next(s.t, p) in s.t.head && s.t.head[Next(s.t, p)].pinuse && !(p < s.t.top < Next(s.t, p))
    ensures Run(s.t, p, Next(s.t, p))
  {
    hide BitsAgree, Tiled, Apart, EndsOk, SegsOk, Pool, FeetAgree, Run;
    assert Is(s.t, p) && s.t.head[p].cinuse;
    ChunkFacts(s.t, p);
    RunOne(s.t, p);
  }

  ghost predicate BackKnown(s: State, p: nat) {
    && p in s.t.foot && s.t.foot[p] <= p
    && var q := p - s.t.foot[p];
       && q in Pool(s) && Pool(s)[q] == s.t.foot[p] && q + s.t.foot[p] == p && MIN_CHUNK_SIZE <= s.t.foot[p]
       && Is(s.t, q)
       && s.t.head[q].pinuse && !(q <= s.t.top < p) && Run(s.t, q, p) && Held(s.segs, q, p)
  }

  lemma BackFacts(s: State, p: nat)
    requires Is(s.t, p) && !s.t.head[p].pinuse && Ok(s)
    ensures BackKnown(s, p)
  {
    hide Ok, Shape, SegsOk, Pool, Run, Held;
    OkParts(s);
    BackOf(s.t, p);
    var q := p - s.t.foot[p];
    ChunkFacts(s.t, q);
    RunOne(s.t, q);
    HeldLimit(s.segs, s.t, q);
  }

  lemma OkParts(s: State)
    requires Ok(s)
    ensures Shape(s.t) && SegsOk(s.t, s.segs) && FreeAgree(s.t, Pool(s))
  {
  }

  lemma BackOf(t: Tags, p: nat)
    requires Shape(t) && Is(t, p)
    ensures BackAt(t, p)
  {
  }

  /** The chunk behind a live one, when it is free. */
  lemma NextFacts(s: State, p: nat)
    requires Live(s, p) && Is(s.t, p) && Next(s.t, p) in s.t.head && !s.t.head[Next(s.t, p)].cinuse
    ensures var x := Next(s.t, p);
            && Is(s.t, x) && (x == s.t.top || (x in Pool(s) && Pool(s)[x] == s.t.head[x].size))
            && !(x < s.t.top < Next(s.t, x))
            && Border(s.t, Next(s.t, x)) && Held(s.segs, x, Next(s.t, x)) && 8 <= s.t.head[x].size
            && (x != s.t.top ==> s.t.head[Next(s.t, x)].cinuse && !s.t.head[Next(s.t, x)].pinuse)
  {
    hide Tiled, Apart, SegsOk, Pool, FeetAgree;
    var x := Next(s.t, p);
    ChunkFacts(s.t, p);
    NextStarts(s.t, p);
    assert Is(s.t, x);
    ChunkFacts(s.t, x);
    HeldLimit(s.segs, s.t, x);
  }

  lemma NextStarts(t: Tags, p: nat)
    requires Shape(t) && Is(t, p) && t.head[p].cinuse && Border(t, Next(t, p)) && !t.head[Next(t, p)].cinuse
    ensures Next(t, p) in t.starts
  {
    hide Tiled, Apart, FeetAgree;
    assert BitsAt(t, p) && BitsAt(t, t.top);
  }

  // ----- the joined chunk -----------------------------------------------------------------

  ghost function Lo(t: Tags, p: nat): nat {
    if p in t.head && !t.head[p].pinuse && p in t.foot && t.foot[p] <= p then p - t.foot[p] else p
  }

  ghost function Hi(t: Tags, p: nat): nat {
    var x := if p in t.head then p + t.head[p].size else p;
    if x in t.head && !t.head[x].cinuse then x + t.head[x].size else x
  }

  /** From Lo to Hi there is only p and its free neighbours. */
  lemma AroundFacts(s: State, p: nat)
    requires Live(s, p)
    ensures p in s.t.head && (!s.t.head[p].pinuse ==> p in s.t.foot && s.t.foot[p] <= p) && Next(s.t, p) in s.t.head
    ensures var lo, hi, x := Lo(s.t, p), Hi(s.t, p), Next(s.t, p);
            && Run(s.t, lo, hi) && s.t.head[lo].pinuse && Held(s.segs, lo, hi) && lo <= p < x <= hi
            && (lo <= s.t.top < hi <==> x == s.t.top) && (x == s.t.top ==> hi == x + s.topsize)
            && (x != s.t.top ==> s.t.head[hi].cinuse)
  {
    hide Ok, Run, Held, Pool;
    OkShape(s);
    PrevFacts(s, p);
    var x := Next(s.t, p);
    var lo := Lo(s.t, p);
    if !s.t.head[p].pinuse {
      RunTwo(s.t, lo, p);
      HeldJoins(s.segs, lo, p, x);
    }
    if !s.t.head[x].cinuse {
      NextFacts(s, p);
      RunTwo(s.t, lo, x);
      HeldJoins(s.segs, lo, x, Next(s.t, x));
    }
  }

  lemma OkShape(s: State)
    requires Ok(s)
    ensures Shape(s.t) && SegmentsApart(s.segs) && Is(s.t, s.t.top) && !s.t.head[s.t.top].cinuse
            && s.topsize == s.t.head[s.t.top].size
  {
  }

  lemma OnlyNeighbours(s: State, p: nat, a: nat)
    requires Is(s.t, p) && Is(s.t, a) && Lo(s.t, p) <= a < Hi(s.t, p) && Live(s, p)
    ensures a == Lo(s.t, p) || a == p || (a == Next(s.t, p) && !s.t.head[a].cinuse)
  {
    hide Ok, Run, Held, Pool;
    OkShape(s);
    PrevFacts(s, p);
    var x := Next(s.t, p);
    if a < p {
      PoolChunk(s, Lo(s.t, p));
      NoneInside(s.t, Lo(s.t, p), a);
    } else if a < x {
      NoneInside(s.t, p, a);
    } else {
      if !s.t.head[x].cinuse {
        NextFacts(s, p);
        NoneInside(s.t, x, a);
      }
    }
  }

  lemma PoolChunk(s: State, a: nat)
    requires Ok(s) && a in Pool(s)
    ensures Free(s.t, a) && s.t.head[a].size == Pool(s)[a]
  {
    assert Is(s.t, a);
  }

  function JoinEdit(lo: nat, hi: nat): Edit { Edit(lo, hi, hi, false, false) }

  ghost function Joined(t: Tags, lo: nat, hi: nat): Tags
    requires lo < hi && hi in t.head
  {
    Cut(t, JoinEdit(lo, hi), t.head[hi := t.head[hi].(pinuse := false)][lo := Head(hi - lo, true, false)],
        t.foot[hi := hi - lo])
  }

  ghost function JoinedTop(t: Tags, lo: nat, hi: nat): Tags
    requires lo < hi
  {
    Cut(t, JoinEdit(lo, hi), t.head[lo := Head(hi - lo, true, false)], t.foot)
  }

  /** free, when the chunk behind p is not top. */
  ghost predicate Freed(s: State, p: nat, lo: nat, hi: nat, s2: State) {
    && lo < hi && hi in s.t.head && s2.t == Joined(s.t, lo, hi)
    && Pool(s2) == (Pool(s) - {lo, if p in s.t.head then p + s.t.head[p].size else p})[lo := hi - lo]
    && DvOk(s2) && s2.topsize == s.topsize && s2.segs == s.segs && s2.live == s.live - {p}
  }

  /** free, when it is. */
  ghost predicate FreedIntoTop(s: State, p: nat, lo: nat, hi: nat, s2: State) {
    && lo < hi && s2.t == JoinedTop(s.t, lo, hi)
    && Pool(s2) == Pool(s) - {lo}
    && DvOk(s2) && s2.topsize == hi - lo && s2.segs == s.segs && s2.live == s.live - {p}
  }

  /** What both cases need: an edit around p. */
  lemma FreedOk(s: State, d: map<nat, bv8>, p: nat, e: Edit, s2: State, d2: map<nat, bv8>)
    requires Live(s, p) && e == JoinEdit(Lo(s.t, p), Hi(s.t, p)) && Edits(s.t, e) && Edited(s.t, e, s2.t)
    requires PoolStep(s.t, e, Pool(s), Pool(s2)) && DvOk(s2)
    requires s2.topsize == (if MovesTop(s.t, e) then e.hi - e.lo else s.topsize) && s2.segs == s.segs
             && s2.live == s.live - {p}
    requires forall x: nat {:trigger Same(d, d2, x)} :: !(e.lo + 8 <= x < e.hi + 16) ==> Same(d, d2, x)
    ensures Ok(s2) && Released(s, d, s2, d2, p)
  {
    hide Ok, Shape, Run, Held, Pool, Edits, Edited, PoolStep, Lo, Hi, LiveKept, FreeAround;
    OkParts(s);
    PrevFacts(s, p);
    AroundFacts(s, p);
    LiveAround(s, p);
    StepOk(s, e, s2);
    EditSpares(s, d, e, s2, d2, {p});
    FreedAround(s.t, e, s2.t, p, Next(s.t, p));
    FreedUse(s.t, e, s2.t, p);
  }

  lemma FreedUse(t: Tags, e: Edit, t2: Tags, p: nat)
    requires Shape(t) && Edits(t, e) && Edited(t, e, t2) && e.lo <= p < e.hi && !e.used1 && !e.used2 && e.cut == e.hi
    ensures NoLeak(t, t2, {}) && (Is(t2, p) ==> !t2.head[p].cinuse)
  {
    hide Edited, Edits, BitsAgree, FeetAgree, TopOk;
    EditUse(t, e, t2);
    NewChunks(t, e, t2, p);
  }

  lemma FreedAround(t: Tags, e: Edit, t2: Tags, lo: nat, hi: nat)
    requires Shape(t) && Edits(t, e) && Edited(t, e, t2) && e.lo <= lo && hi <= e.hi && !e.used1 && e.cut == e.hi
    ensures FreeAround(t2, lo, hi)
  {
    EditedAt(t, e, t2);
    EditFacts(t, e, t2);
    assert Free(t2, e.lo) && Next(t2, e.lo) == e.hi;
  }

  lemma LiveAround(s: State, p: nat)
    requires Live(s, p)
    ensures forall a <- s.live :: a != p ==> !(Lo(s.t, p) <= a < Hi(s.t, p))
  {
    hide Shape, Run, Held, SegsOk, FreeAgree, Lo, Hi;
    forall a | a in s.live && a != p && Lo(s.t, p) <= a < Hi(s.t, p) ensures false {
      PrevFacts(s, p);
      OnlyNeighbours(s, p, a);
      LoFree(s, p);
    }
  }

  /** The chunk at Lo is p or free. */
  lemma LoFree(s: State, p: nat)
    requires Live(s, p)
    ensures Lo(s.t, p) == p || Free(s.t, Lo(s.t, p))
  {
    hide Ok, Shape, Run, Held, Pool;
    PrevFacts(s, p);
    if Lo(s.t, p) != p {
      PoolChunk(s, Lo(s.t, p));
    }
  }

  lemma FreedPool(s: State, p: nat, pool2: map<nat, nat>)
    requires Live(s, p)
    requires var lo, hi := Lo(s.t, p), Hi(s.t, p);
             var x := if p in s.t.head then p + s.t.head[p].size else p;
             if lo <= s.t.top < hi then pool2 == Pool(s) - {lo}
                 else lo < hi && pool2 == (Pool(s) - {lo, x})[lo := hi - lo]
    ensures PoolStep(s.t, JoinEdit(Lo(s.t, p), Hi(s.t, p)), Pool(s), pool2)
  {
    hide Ok, Shape, Run, Held, Pool, Lo, Hi, PoolStep;
    PrevFacts(s, p);
    AroundFacts(s, p);
    PoolAround(s, p);
    var lo, hi, x := Lo(s.t, p), Hi(s.t, p), Next(s.t, p);
    JoinPool(s.t, Pool(s), lo, hi, x, pool2);
  }

  /** The pool's chunks between Lo and Hi are the free neighbours of p. */
  lemma PoolAround(s: State, p: nat)
    requires Live(s, p) && Is(s.t, p)
    ensures forall a :: a in Pool(s) && Lo(s.t, p) <= a < Hi(s.t, p) ==> a == Lo(s.t, p) || a == Next(s.t, p)
    ensures Next(s.t, p) in Pool(s) ==> Next(s.t, p) < Hi(s.t, p)
    ensures s.t.top !in Pool(s)
  {
    hide Shape, Run, Held, Pool, Lo, SegsOk;
    OkShape(s);
    PrevFacts(s, p);
    forall a | a in Pool(s) && Lo(s.t, p) <= a < Hi(s.t, p) ensures a == Lo(s.t, p) || a == Next(s.t, p) {
      PoolChunk(s, a);
      OnlyNeighbours(s, p, a);
    }
    if Next(s.t, p) in Pool(s) {
      PoolChunk(s, Next(s.t, p));
      NextFacts(s, p);
    }
  }

  lemma JoinPool(t: Tags, pool: map<nat, nat>, lo: nat, hi: nat, x: nat, pool2: map<nat, nat>)
    requires lo < hi && (forall a :: a in pool && lo <= a < hi ==> a == lo || a == x) && lo <= x
             && (x in pool ==> x < hi)
    requires t.top !in pool && (lo <= t.top < hi ==> x == t.top)
    requires pool2 == if lo <= t.top < hi then pool - {lo} else (pool - {lo, x})[lo := hi - lo]
    ensures PoolStep(t, JoinEdit(lo, hi), pool, pool2)
  {
  }

  lemma FreedPlainly(s: State, d: map<nat, bv8>, p: nat, s2: State, d2: map<nat, bv8>)
    requires Live(s, p) && Freed(s, p, Lo(s.t, p), Hi(s.t, p), s2) && !(Lo(s.t, p) <= s.t.top < Hi(s.t, p))
    requires forall x: nat {:trigger Same(d, d2, x)} :: !(Lo(s.t, p) + 8 <= x < Hi(s.t, p) + 16) ==> Same(d, d2, x)
    ensures Ok(s2) && Released(s, d, s2, d2, p)
  {
    hide Ok, Shape, Run, Held, Pool, Lo, Hi, Edits, Edited, PoolStep, Released, Cut, Same;
    OkParts(s);
    AroundFacts(s, p);
    Join(s.t, Lo(s.t, p), Hi(s.t, p));
    FreedPool(s, p, Pool(s2));
    FreedOk(s, d, p, JoinEdit(Lo(s.t, p), Hi(s.t, p)), s2, d2);
  }

  lemma FreedToTop(s: State, d: map<nat, bv8>, p: nat, s2: State, d2: map<nat, bv8>)
    requires Live(s, p) && FreedIntoTop(s, p, Lo(s.t, p), Hi(s.t, p), s2) && Lo(s.t, p) <= s.t.top < Hi(s.t, p)
    requires forall x: nat {:trigger Same(d, d2, x)} :: !(Lo(s.t, p) + 8 <= x < Hi(s.t, p) + 16) ==> Same(d, d2, x)
    ensures Ok(s2) && Released(s, d, s2, d2, p)
  {
    hide Ok, Shape, Run, Held, Pool, Lo, Hi, Edits, Edited, PoolStep, Released, Cut, Same;
    OkParts(s);
    AroundFacts(s, p);
    JoinTop(s.t, Lo(s.t, p), Hi(s.t, p));
    FreedPool(s, p, Pool(s2));
    FreedOk(s, d, p, JoinEdit(Lo(s.t, p), Hi(s.t, p)), s2, d2);
  }

  // ----- the pool in each branch of free ----------------------------------------------------

  /** The joined chunk is binned: n bytes at p, and x (if it was binned) is gone. */
  lemma PoolBinned(s: State, p: nat, x: nat, n: nat, s2: State)
    requires DvOk(s) && s2.free == (s.free - {p, x})[p := n] && s2.dv == s.dv && s2.dvsize == s.dvsize
    requires s.dvsize != 0 ==> p != s.dv && x != s.dv
    ensures Pool(s2) == (Pool(s) - {p, x})[p := n] && DvOk(s2)
  {
  }

  /** It is dv: because p was, or because x was. */
  lemma PoolDv(s: State, p: nat, x: nat, n: nat, s2: State)
    requires DvOk(s) && s2.free == s.free - {p, x} && s2.dv == p && s2.dvsize == n && n > 0
    requires s.dvsize != 0 && (p == s.dv || x == s.dv)
    ensures Pool(s2) == (Pool(s) - {p, x})[p := n] && DvOk(s2)
  {
  }

  /** It is top: p is no free chunk in the pool any more. */
  lemma PoolTop(s: State, p: nat, s2: State)
    requires DvOk(s) && s2.free == s.free - {p}
    requires if s.dvsize != 0 && p == s.dv then s2.dv == 0 && s2.dvsize == 0 else s2.dv == s.dv && s2.dvsize == s.dvsize
    ensures Pool(s2) == Pool(s) - {p} && DvOk(s2)
  {
  }

  /** The heap in the middle of free: the chunk that the joined one starts with is in no bin. */
  ghost predicate Freeing(s: State, p0: nat, p: nat, s1: State) {
    Live(s, p0) && p == Lo(s.t, p0) && s1 == s.(live := s.live - {p0}, free := s.free - {p})
  }

  /** What free knows of the chunk behind p0 then. */
  lemma ForwardFacts(s: State, p0: nat)
    requires Live(s, p0)
    ensures Is(s.t, p0) && Next(s.t, p0) in s.t.head
    ensures var lo, hi, x := Lo(s.t, p0), Hi(s.t, p0), Next(s.t, p0);
            && lo < x <= hi && lo > 0 && hi in s.t.head && hi - lo < SIZE_LIMIT && (hi - lo) % 8 == 0
            && MIN_CHUNK_SIZE <= hi - lo
            && (s.t.head[x].cinuse ==> hi == x && x !in Pool(s) && x != s.t.top)
            && (!s.t.head[x].cinuse && x != s.t.top ==>
                x in Pool(s) && Pool(s)[x] == s.t.head[x].size && hi == x + Pool(s)[x] && !s.t.head[hi].pinuse)
            && (x == s.t.top ==> hi == x + s.topsize && !s.t.head[x].cinuse)
            && (lo <= s.t.top < hi <==> x == s.t.top)
  {
    hide Ok, Shape, Held, Pool, Lo, SegsOk;
    OkShape(s);
    OkParts(s);
    PrevFacts(s, p0);
    AroundFacts(s, p0);
    var x := Next(s.t, p0);
    if !s.t.head[x].cinuse {
      NextFacts(s, p0);
    } else if x in Pool(s) {
      PoolChunk(s, x);
    }
    HeldWithin(s, Lo(s.t, p0), Hi(s.t, p0));
  }

  lemma HeldWithin(s: State, lo: nat, hi: nat)
    requires Ok(s) && Held(s.segs, lo, hi)
    ensures hi <= SIZE_LIMIT && lo > 0
  {
    var i :| HeldBy(s.segs, i, lo, hi);
    assert s.segs[i] in s.segs;
  }
}
