/** The state of the allocator as a value, its invariant, and the steps that malloc, free and
    realloc are made of: each cuts one stretch of chunks anew. */
module AllocState {
  import opened AllocSizes
  import opened AllocShape
  import opened AllocSegments

  /** free: the chunks in the bins. live: the chunks whose memory a client holds. */
  datatype State = State(
    t: Tags, topsize: nat, dv: nat, dvsize: nat, free: map<nat, nat>, segs: seq<Segment>, live: set<nat>)

  /** All free chunks but top: those in the bins and dv. */
  function Pool(s: State): map<nat, nat> { if s.dvsize == 0 then s.free else s.free[s.dv := s.dvsize] }

  ghost predicate FreeAgree(t: Tags, pool: map<nat, nat>) {
    forall a: nat {:trigger Is(t, a)} {:trigger a in pool} ::
      (a in pool <==> Free(t, a) && a != t.top) && (a in pool ==> pool[a] == t.head[a].size)
  }

  ghost predicate LiveOk(t: Tags, live: set<nat>) { forall a <- live :: Is(t, a) && t.head[a].cinuse }

  /** dv is not binned, and null when there is none. */
  ghost predicate DvOk(s: State) { if s.dvsize != 0 then s.dv !in s.free else s.dv == 0 }

  ghost predicate Ok(s: State) {
    && Shape(s.t) && SegsOk(s.t, s.segs)
    && s.topsize == s.t.head[s.t.top].size
    && DvOk(s)
    && FreeAgree(s.t, Pool(s)) && LiveOk(s.t, s.live)
  }

  /** The pool loses what was in the edited space and gains the new free chunk. */
  ghost predicate PoolStep(t: Tags, e: Edit, pool: map<nat, nat>, pool2: map<nat, nat>) {
    && (forall a: nat {:trigger a in pool2} {:trigger a in pool} :: !(e.lo <= a < e.hi) ==>
          (a in pool2 <==> a in pool) && (a in pool ==> pool2[a] == pool[a]))
    && (forall a: nat {:trigger a in pool2} :: e.lo <= a < e.hi ==>
          (a in pool2 <==> !e.used2 && !MovesTop(t, e) && a == Last(e))
          && (a in pool2 ==> pool2[a] == e.hi - a))
  }

  ghost predicate LiveStep(e: Edit, live: set<nat>, live2: set<nat>) {
    forall a <- live2 :: (a in live && !(e.lo <= a < e.hi)) || (a == e.lo && e.used1)
        || (a == e.cut && e.cut < e.hi && e.used2)
  }

  lemma EditFree(t: Tags, e: Edit, t2: Tags, pool: map<nat, nat>, pool2: map<nat, nat>)
    requires Shape(t) && Edits(t, e) && Edited(t, e, t2) && FreeAgree(t, pool) && PoolStep(t, e, pool, pool2)
    ensures FreeAgree(t2, pool2)
  {
    hide Edited, Edits, Tiled, Apart, BitsAgree, FeetAgree, EndsOk, TopOk, PoolStep;
    EditFacts(t, e, t2);
    TopStays(t, e, t2);
    forall a: nat
      ensures (a in pool2 <==> Free(t2, a) && a != t2.top) && (a in pool2 ==> pool2[a] == t2.head[a].size)
    {
      PoolAt(t, e, pool, pool2, a);
      if e.lo <= a < e.hi {
        NewChunks(t, e, t2, a);
      } else {
        Kept(t, e, t2, a);
      }
    }
  }

  lemma PoolAt(t: Tags, e: Edit, pool: map<nat, nat>, pool2: map<nat, nat>, a: nat)
    requires PoolStep(t, e, pool, pool2)
    ensures !(e.lo <= a < e.hi) ==> (a in pool2 <==> a in pool) && (a in pool ==> pool2[a] == pool[a])
    ensures e.lo <= a < e.hi ==>
              (a in pool2 <==> !e.used2 && !MovesTop(t, e) && a == Last(e)) && (a in pool2 ==> pool2[a] == e.hi - a)
  {
  }

  lemma EditLive(t: Tags, e: Edit, t2: Tags, live: set<nat>, live2: set<nat>)
    requires Shape(t) && Edits(t, e) && Edited(t, e, t2) && LiveOk(t, live) && LiveStep(e, live, live2)
    ensures LiveOk(t2, live2)
  {
    hide Edited, Edits, Tiled, Apart, BitsAgree, FeetAgree, EndsOk, TopOk;
    EditFacts(t, e, t2);
    forall a | a in live2 ensures Is(t2, a) && t2.head[a].cinuse {
      if e.lo <= a < e.hi {
        NewChunks(t, e, t2, a);
      } else {
        Kept(t, e, t2, a);
      }
    }
  }

  /** A step that cuts a stretch anew and keeps the pool and the top size up with it keeps the
      invariant. */
  lemma StepOk(s: State, e: Edit, s2: State)
    requires Ok(s) && Edits(s.t, e) && Edited(s.t, e, s2.t) && Held(s.segs, e.lo, e.hi) && s2.segs == s.segs
    requires PoolStep(s.t, e, Pool(s), Pool(s2)) && DvOk(s2)
    requires s2.topsize == if MovesTop(s.t, e) then e.hi - Last(e) else s.topsize
    requires LiveStep(e, s.live, s2.live)
    ensures Ok(s2)
  {
    hide Edited, Edits, FreeAgree, PoolStep, LiveStep, LiveOk, Tiled, Apart, BitsAgree, FeetAgree, EndsOk,
         SegmentsApart, AllHeld, BasesOk, TopLast, Held, Pool;
    EditOk(s.t, e, s2.t);
    EditSegs(s.t, e, s2.t, s.segs);
    EditFree(s.t, e, s2.t, Pool(s), Pool(s2));
    EditLive(s.t, e, s2.t, s.live, s2.live);
    EditFacts(s.t, e, s2.t);
    TopStays(s.t, e, s2.t);
  }

  // ----- the steps ----------------------------------------------------------------------

  function CutStarts(starts: set<nat>, e: Edit): set<nat> {
    (set x | x in starts && !(e.lo <= x < e.hi)) + {e.lo} + if e.cut < e.hi then {e.cut} else {}
  }

  /** t with other head and foot words, cut as e says. */
  function Cut(t: Tags, e: Edit, head: map<nat, Head>, foot: map<nat, nat>): Tags {
    Tags(head, foot, CutStarts(t.starts, e), t.ends, if e.lo <= t.top < e.hi then Last(e) else t.top)
  }

  /** What is known around one chunk. */
  lemma ChunkFacts(t: Tags, a: nat)
    requires Shape(t) && Is(t, a)
    ensures a % 8 == 0 && t.head[a].size % 8 == 0 && t.head[a].size >= 8
    ensures a != t.top ==> t.head[a].size >= MIN_CHUNK_SIZE
    ensures Border(t, Next(t, a)) && t.head[Next(t, a)].pinuse == t.head[a].cinuse
    ensures forall x <- t.ends :: !(a < x < Next(t, a)) && x != a
    ensures !(a < t.top < Next(t, a))
    ensures Free(t, a) && a != t.top ==> t.head[Next(t, a)].cinuse
    ensures Free(t, a) ==> t.head[a].pinuse
  {
    hide Apart, BitsAgree, FeetAgree;
    ChunkFacts1(t, a);
    if Free(t, a) {
      FreeFacts(t, a);
    }
  }

  lemma ChunkFacts1(t: Tags, a: nat)
    requires Shape(t) && Is(t, a)
    ensures Fits(t, a) && BitsAt(t, a)
    ensures forall x <- t.ends :: !(a < x < Next(t, a)) && x != a
    ensures !(a < t.top < Next(t, a))
  {
    assert Border(t, t.top);
    forall x | x in t.ends ensures !(a < x < Next(t, a)) && x != a {
      assert Border(t, x);
    }
  }

  /** A free chunk has chunks in use on both sides. */
  lemma FreeFacts(t: Tags, a: nat)
    requires Shape(t) && Free(t, a)
    ensures t.head[a].pinuse && (a != t.top ==> Next(t, a) in t.head && t.head[Next(t, a)].cinuse)
  {
    hide Apart;
    assert BitsAt(t, a) && BackAt(t, a) && Fits(t, a);
  }

  lemma TopIs(t: Tags)
    requires Shape(t)
    ensures Free(t, t.top) && t.head[t.top].pinuse && Next(t, t.top) in t.ends
  {
  }

  /** set_inuse_and_pinuse on a free chunk. */
  lemma TakeWhole(t: Tags, p: nat)
    requires Shape(t) && Free(t, p) && p != t.top
    ensures var hi := Next(t, p);
            var e := Edit(p, hi, hi, true, true);
            && hi in t.head && Edits(t, e)
            && Edited(t, e,
                      Cut(t, e, t.head[p := Head(t.head[p].size, true, true)][hi := t.head[hi].(pinuse := true)],
                          t.foot))
  {
    hide Shape;
    ChunkFacts(t, p);
  }

  /** set_size_and_pinuse_of_inuse_chunk on the front, set_size_and_pinuse_of_free_chunk on the rest. */
  lemma TakeFront(t: Tags, p: nat, nb: nat)
    requires Shape(t) && Free(t, p) && p != t.top && nb % 8 == 0 && MIN_CHUNK_SIZE <= nb
             && nb + MIN_CHUNK_SIZE <= t.head[p].size
    ensures var hi := Next(t, p);
            var e := Edit(p, p + nb, hi, true, false);
            && Edits(t, e)
            && Edited(t, e,
                      Cut(t, e, t.head[p := Head(nb, true, true)][p + nb := Head(hi - p - nb, true, false)],
                          t.foot[hi := hi - p - nb]))
  {
    hide Shape;
    ChunkFacts(t, p);
  }

  /** The front of top is taken, the rest stays top. */
  lemma TakeTop(t: Tags, nb: nat)
    requires Shape(t) && nb % 8 == 0 && MIN_CHUNK_SIZE <= nb && nb < t.head[t.top].size
    ensures var hi := Next(t, t.top);
            var e := Edit(t.top, t.top + nb, hi, true, false);
            && Edits(t, e)
            && Edited(t, e,
                      Cut(t, e, t.head[t.top + nb := Head(hi - t.top - nb, true, false)][t.top := Head(nb, true, true)],
                          t.foot))
  {
    hide Shape;
    TopIs(t);
    ChunkFacts(t, t.top);
  }

  /** A chunk in use becomes two chunks in use: set_inuse on both. */
  lemma SplitUsed(t: Tags, p: nat, nb: nat)
    requires Shape(t) && Is(t, p) && t.head[p].cinuse
    requires nb % 8 == 0 && MIN_CHUNK_SIZE <= nb && nb + MIN_CHUNK_SIZE <= t.head[p].size
    ensures var hi := Next(t, p);
            var e := Edit(p, p + nb, hi, true, true);
            && hi in t.head && Edits(t, e)
            && Edited(t, e,
                      Cut(t, e, t.head[p := Head(nb, t.head[p].pinuse, true)][p + nb := Head(hi - p - nb, true, true)]
                                            [hi := t.head[hi].(pinuse := true)], t.foot))
  {
    hide Shape;
    ChunkFacts(t, p);
    TopIs(t);
  }

  /** A chunk in use before top takes a part of it. */
  lemma GrowIntoTop(t: Tags, p: nat, nb: nat)
    requires Shape(t) && Is(t, p) && t.head[p].cinuse && Next(t, p) == t.top
    requires nb % 8 == 0 && MIN_CHUNK_SIZE <= nb && p + nb < Next(t, t.top)
    ensures var hi := Next(t, t.top);
            var e := Edit(p, p + nb, hi, true, false);
            && Edits(t, e)
            && Edited(t, e,
                      Cut(t, e, t.head[p := Head(nb, t.head[p].pinuse, true)][p + nb := Head(hi - p - nb, true, false)],
                          t.foot))
  {
    hide Shape;
    TopIs(t);
    ChunkFacts(t, p);
    ChunkFacts(t, t.top);
  }

  /** No segment ends between lo and hi, and top is not cut by them. */
  ghost predicate Run(t: Tags, lo: nat, hi: nat) {
    && Is(t, lo) && Border(t, hi) && lo < hi && (forall x <- t.ends :: !(lo < x < hi))
    && lo % 8 == 0 && hi % 8 == 0 && MIN_CHUNK_SIZE <= hi - lo
    && (lo <= t.top < hi ==> Is(t, t.top) && Next(t, t.top) == hi)
  }

  lemma RunOne(t: Tags, a: nat)
    requires Shape(t) && Is(t, a) && a != t.top
    ensures Run(t, a, Next(t, a))
  {
    ChunkFacts(t, a);
    hide Shape;
  }

  lemma RunTwo(t: Tags, lo: nat, mid: nat)
    requires Shape(t) && Run(t, lo, mid) && Is(t, mid) && !(lo <= t.top < mid)
    ensures Run(t, lo, Next(t, mid))
  {
    ChunkFacts(t, mid);
    hide Shape;
  }

  /** A run of chunks behind one in use, and before one in use, becomes one free chunk. */
  lemma Join(t: Tags, lo: nat, hi: nat)
    requires Shape(t) && Run(t, lo, hi) && t.head[lo].pinuse && !(lo <= t.top < hi) && hi in t.head && t.head[hi].cinuse
    ensures var e := Edit(lo, hi, hi, false, false);
            && hi in t.head && Edits(t, e)
            && Edited(t, e,
                      Cut(t, e, t.head[hi := t.head[hi].(pinuse := false)][lo := Head(hi - lo, true, false)],
                          t.foot[hi := hi - lo]))
  {
    assert TopOk(t);
    hide Shape;
  }

  /** A run that ends with top becomes top. */
  lemma JoinTop(t: Tags, lo: nat, hi: nat)
    requires Shape(t) && Run(t, lo, hi) && t.head[lo].pinuse && lo <= t.top < hi
    ensures var e := Edit(lo, hi, hi, false, false);
            && Edits(t, e)
            && Edited(t, e, Cut(t, e, t.head[lo := Head(hi - lo, true, false)], t.foot))
  {
    assert TopOk(t);
    ChunkFacts(t, t.top);
    hide Shape;
  }

  // ----- the memory of the clients ----------------------------------------------------------

  /** The bytes of the chunk at a, of size n, that malloc hands out: they include the footer
      word of the next chunk. */
  predicate InPayload(a: nat, n: nat, x: nat) { a + 16 <= x < a + n + CHUNK_OVERHEAD }

  predicate Same(d: map<nat, bv8>, d2: map<nat, bv8>, x: nat) {
    (x in d <==> x in d2) && (x in d ==> d[x] == d2[x])
  }

  ghost predicate SamePayload(d: map<nat, bv8>, d2: map<nat, bv8>, a: nat, n: nat) {
    forall x: nat {:trigger Same(d, d2, x)} :: InPayload(a, n, x) ==> Same(d, d2, x)
  }

  /** The live chunk at a is still there, with its size and its bytes. */
  ghost predicate KeptAt(s: State, d: map<nat, bv8>, s2: State, d2: map<nat, bv8>, a: nat) {
    && Is(s.t, a) && a in s2.live && Is(s2.t, a) && s2.t.head[a].size == s.t.head[a].size
    && SamePayload(d, d2, a, s.t.head[a].size)
  }

  ghost predicate LiveKept(s: State, d: map<nat, bv8>, s2: State, d2: map<nat, bv8>, but: set<nat>) {
    forall a <- s.live :: a !in but ==> KeptAt(s, d, s2, d2, a)
  }

  /** No chunk comes into use but those in but. */
  ghost predicate NoLeak(t: Tags, t2: Tags, but: set<nat>) {
    forall a: nat {:trigger Is(t2, a)} :: Is(t2, a) && t2.head[a].cinuse && a !in but ==>
        Is(t, a) && t.head[a].cinuse
  }

  /** malloc's promise: the chunk at p is new to the client, big enough but no more than it has to be,
      no other is touched, and nothing else is used up. */
  ghost predicate Granted(s: State, d: map<nat, bv8>, s2: State, d2: map<nat, bv8>, p: nat, nb: nat) {
    && p !in s.live && s2.live == s.live + {p} && LiveKept(s, d, s2, d2, {})
    && Is(s2.t, p) && nb <= s2.t.head[p].size < nb + MIN_CHUNK_SIZE
    && (s2.segs == s.segs ==> NoLeak(s.t, s2.t, {p}))
  }

  lemma LiveKeptTwice(s: State, d: map<nat, bv8>, s1: State, d1: map<nat, bv8>, s2: State, d2: map<nat, bv8>,
                      but: set<nat>)
    requires LiveKept(s, d, s1, d1, but) && LiveKept(s1, d1, s2, d2, but)
    ensures LiveKept(s, d, s2, d2, but)
  {
    forall a | a in s.live && a !in but ensures KeptAt(s, d, s2, d2, a) {
      assert KeptAt(s, d, s1, d1, a) && KeptAt(s1, d1, s2, d2, a);
      forall x: nat | InPayload(a, s.t.head[a].size, x) ensures Same(d, d2, x) {
        assert Same(d, d1, x) && Same(d1, d2, x);
      }
    }
  }

  /** An edit writes only between the head word of its first chunk and the head word behind its
      last: no byte of another chunk's payload is there. */
  lemma EditSpares(s: State, d: map<nat, bv8>, e: Edit, s2: State, d2: map<nat, bv8>, but: set<nat>)
    requires Ok(s) && Edits(s.t, e) && Edited(s.t, e, s2.t)
             && (forall a <- s.live :: a !in but ==> a in s2.live && !(e.lo <= a < e.hi))
    requires forall x: nat {:trigger Same(d, d2, x)} :: !(e.lo + 8 <= x < e.hi + 16) ==> Same(d, d2, x)
    ensures LiveKept(s, d, s2, d2, but)
  {
    hide Edited, Edits, Tiled, Apart, BitsAgree, FeetAgree, EndsOk, TopOk, SegsOk, FreeAgree, Same;
    forall a | a in s.live && a !in but ensures KeptAt(s, d, s2, d2, a) {
      Kept(s.t, e, s2.t, a);
    }
  }

  /** The payloads of live chunks are disjoint, and disjoint from every head word and from the
      footer word of every free chunk. */
  lemma PayloadsDisjoint(s: State, a: nat, b: nat, x: nat)
    requires Ok(s) && a in s.live && Is(s.t, a) && InPayload(a, s.t.head[a].size, x)
    ensures b in s.live && b != a && Is(s.t, b) ==> !InPayload(b, s.t.head[b].size, x)
    ensures Border(s.t, b) ==> !(b + 8 <= x < b + 16)
    ensures Free(s.t, b) && b != s.t.top ==> !(Next(s.t, b) <= x < Next(s.t, b) + 8)
  {
    hide BitsAgree, FeetAgree, EndsOk, TopOk, SegsOk, FreeAgree;
    assert Border(s.t, a);
    ChunkFacts(s.t, a);
    if Is(s.t, b) {
      assert Border(s.t, b);
      ChunkFacts(s.t, b);
    }
  }

  /** What the pool lists are sizes the bins take. */
  lemma PoolSizes(s: State, a: nat)
    requires Ok(s) && a in Pool(s)
    ensures Pool(s)[a] % 8 == 0 && MIN_CHUNK_SIZE <= Pool(s)[a] < SIZE_LIMIT
    ensures Free(s.t, a) && a != s.t.top && s.t.head[a].size == Pool(s)[a]
  {
    hide BitsAgree, FeetAgree, EndsOk, Apart;
    assert Is(s.t, a);
    ChunkFacts(s.t, a);
    HeldLimit(s.segs, s.t, a);
  }

  lemma HeldLimit(segs: seq<Segment>, t: Tags, a: nat)
    requires SegsOk(t, segs) && Is(t, a)
    ensures Next(t, a) + 16 <= SIZE_LIMIT && Held(segs, a, Next(t, a)) && 0 < a
  {
    var i :| HeldBy(segs, i, a, Next(t, a));
    assert segs[i] in segs;
  }
}
