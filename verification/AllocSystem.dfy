/** What new memory from the system makes of the allocator state. */
module AllocSystem {
  import opened AllocSizes
  import opened AllocShape
  import opened AllocSegments
  import opened AllocNewSegment
  import opened AllocState
  import opened AllocSteps
  import opened AllocFree

  /** granularity_align in size_t arithmetic. */
  function GranularityAlign(s: nat): nat { (s + GRANULARITY - 1) % SIZE_T_LIMIT / GRANULARITY * GRANULARITY }

  /** What alloc_sys asks the system for. */
  function SystemSize(nb: nat): nat { GranularityAlign((nb + TOP_FOOT_SIZE + 1) % SIZE_T_LIMIT) }

  lemma Multiple(x: nat)
    ensures x / GRANULARITY * GRANULARITY <= x < x / GRANULARITY * GRANULARITY + GRANULARITY
    ensures x / GRANULARITY * GRANULARITY % 4096 == 0 && x / GRANULARITY * GRANULARITY % GRANULARITY == 0
  {
    var q := x / GRANULARITY;
    assert x == q * GRANULARITY + x % GRANULARITY;
    assert q * GRANULARITY == 4096 * (32 * q);
  }

  lemma AlignUp(s: nat)
    requires s < SIZE_T_LIMIT
    ensures s + GRANULARITY - 1 < SIZE_T_LIMIT ==> s <= GranularityAlign(s) < s + GRANULARITY
    ensures s + GRANULARITY - 1 >= SIZE_T_LIMIT ==> GranularityAlign(s) == 0
    ensures GranularityAlign(s) % 4096 == 0 && GranularityAlign(s) % GRANULARITY == 0
  {
    var x := s + GRANULARITY - 1;
    if x < SIZE_T_LIMIT {
      assert x % SIZE_T_LIMIT == x;
      Multiple(x);
    } else {
      assert x % SIZE_T_LIMIT == x - SIZE_T_LIMIT;
    }
  }

  /** When the request does not wrap around, the system is asked for the least multiple of the
      granularity with room for the chunk, the padding behind top and more. */
  lemma SystemSizeFits(nb: nat)
    requires nb < SIZE_T_LIMIT && SystemSize(nb) > nb
    ensures nb + TOP_FOOT_SIZE + 1 <= SystemSize(nb) < nb + TOP_FOOT_SIZE + 1 + GRANULARITY
    ensures SystemSize(nb) % GRANULARITY == 0 && SystemSize(nb) % 4096 == 0 && SystemSize(nb) >= 4096
  {
    var req := (nb + TOP_FOOT_SIZE + 1) % SIZE_T_LIMIT;
    AlignUp(req);
    hide GranularityAlign;
    assert nb + TOP_FOOT_SIZE + 1 < SIZE_T_LIMIT ==> req == nb + TOP_FOOT_SIZE + 1;
    assert nb + TOP_FOOT_SIZE + 1 >= SIZE_T_LIMIT ==> req == nb + TOP_FOOT_SIZE + 1 - SIZE_T_LIMIT;
  }

  /** It wraps around exactly for sizes that near the end of size_t. */
  lemma SystemSizeWraps(nb: nat)
    requires MIN_CHUNK_SIZE <= nb < SIZE_T_LIMIT
    ensures SystemSize(nb) <= nb <==> nb + TOP_FOOT_SIZE + GRANULARITY >= SIZE_T_LIMIT
  {
    var req := (nb + TOP_FOOT_SIZE + 1) % SIZE_T_LIMIT;
    AlignUp(req);
    hide GranularityAlign;
    assert nb + TOP_FOOT_SIZE + 1 < SIZE_T_LIMIT ==> req == nb + TOP_FOOT_SIZE + 1;
    assert nb + TOP_FOOT_SIZE + 1 >= SIZE_T_LIMIT ==> req == nb + TOP_FOOT_SIZE + 1 - SIZE_T_LIMIT;
  }

  // ----- append -----------------------------------------------------------------------------

  ghost predicate Appends(s: State, n: nat, i: nat, s2: State) {
    && Is(s.t, s.t.top) && Appended(s.t, n, s2.t) && Unmapped(s.segs, Next(s.t, s.t.top) + TOP_FOOT_SIZE, n)
    && i < |s.segs| && s.segs[i].base <= s.t.top && End(s.segs[i]) == Next(s.t, s.t.top) + TOP_FOOT_SIZE
    && s2 == s.(t := s2.t, topsize := s.topsize + n, segs := s.segs[i := Segment(s.segs[i].base, s.segs[i].size + n)])
  }

  lemma AppendsOk(s: State, n: nat, i: nat, s2: State)
    requires Ok(s) && Appends(s, n, i, s2)
    ensures Ok(s2)
  {
    hide Shape, SegsOk, Pool, FreeAgree, LiveOk;
    AppendOk(s.t, s.segs, n, s2.t);
    AppendSegs(s.t, s.segs, n, s2.t, i);
    AppendFree(s, n, i, s2);
  }

  lemma AppendFree(s: State, n: nat, i: nat, s2: State)
    requires Ok(s) && Appends(s, n, i, s2)
    ensures FreeAgree(s2.t, Pool(s2)) && LiveOk(s2.t, s2.live)
  {
    hide Shape, SegsOk, Appended;
    forall a: nat
      ensures Is(s2.t, a) <==> Is(s.t, a)
      ensures Is(s.t, a) && a != s.t.top ==> s2.t.head[a] == s.t.head[a]
      ensures Is(s.t, a) && a == s.t.top ==> s2.t.head[a].cinuse == s.t.head[a].cinuse
    {
      AppendChunk(s.t, s.segs, n, s2.t, a);
      AppendedTop(s, n, s2);
    }
    AppendedTop(s, n, s2);
    assert Pool(s2) == Pool(s);
  }

  lemma AppendedTop(s: State, n: nat, s2: State)
    requires Ok(s) && Appended(s.t, n, s2.t)
    ensures s2.t.top == s.t.top && Is(s2.t, s.t.top) && s2.t.head[s.t.top] == Head(s.topsize + n, true, false)
            && !s.t.head[s.t.top].cinuse
  {
  }

  /** The two header words of init_top are in no payload. */
  lemma AppendSpares(s: State, d: map<nat, bv8>, n: nat, i: nat, s2: State, d2: map<nat, bv8>)
    requires Ok(s) && Appends(s, n, i, s2)
    requires d2 == d - Span(s.t.top + 8, s.t.top + 16) - Span(s.t.top + s.topsize + n + 8, s.t.top + s.topsize + n + 16)
    ensures LiveKept(s, d, s2, d2, {})
  {
    hide SegsOk, Span, Tiled, Apart, BitsAgree, FeetAgree, EndsOk, FreeAgree, Unmapped, Appended;
    TopFacts(s);
    UnmappedSize(s.segs, Next(s.t, s.t.top) + TOP_FOOT_SIZE, n);
    forall a | a in s.live ensures KeptAt(s, d, s2, d2, a) {
      AppendChunk(s.t, s.segs, n, s2.t, a);
      UnmappedIsClear(s.t, s.segs, Next(s.t, s.t.top) + TOP_FOOT_SIZE, n, a);
      AroundTop(s.t, s.segs, a);
    }
  }

  // ----- prepend ----------------------------------------------------------------------------

  /** The new memory counts as one chunk in use first. */
  ghost predicate Prepends(s: State, b: nat, n: nat, i: nat, s2: State) {
    && Prepended(s.t, b, n, s2.t) && Unmapped(s.segs, b, n) && i < |s.segs| && s.segs[i].base == b + n
    && s2 == s.(t := s2.t, segs := Longer(s.segs, i, b, n))
  }

  lemma PrependsOk(s: State, b: nat, n: nat, i: nat, s2: State)
    requires Ok(s) && Prepends(s, b, n, i, s2)
    ensures Ok(s2) && Is(s2.t, b) && s2.t.head[b] == Head(n, true, true) && b !in s.live && Is(s.t, b + n)
            && Held(s2.segs, b, b + n)
  {
    hide Shape, SegsOk, Pool, FreeAgree, LiveOk, Prepended, Longer;
    BaseFacts(s, i);
    PrependOk(s.t, s.segs, b, n, s2.t);
    PrependSegs(s.t, s.segs, b, n, s2.t, i);
    PrependFree(s, b, n, i, s2);
    PrependedAt(s.t, b, n, s2.t);
    HeldLimit(s2.segs, s2.t, b);
  }

  lemma BaseFacts(s: State, i: nat)
    requires Ok(s) && i < |s.segs|
    ensures Is(s.t, s.segs[i].base) && s.t.head[s.segs[i].base].pinuse
  {
    assert s.segs[i] in s.segs;
  }

  lemma PrependedAt(t: Tags, b: nat, n: nat, t2: Tags)
    requires Prepended(t, b, n, t2)
    ensures Is(t2, b) && t2.head[b] == Head(n, true, true) && t2.top == t.top
  {
  }

  lemma PrependFree(s: State, b: nat, n: nat, i: nat, s2: State)
    requires Ok(s) && Prepends(s, b, n, i, s2) && Is(s.t, b + n)
    ensures FreeAgree(s2.t, Pool(s2)) && LiveOk(s2.t, s2.live) && b !in s.live && s2.t.head[s2.t.top].size == s.topsize
  {
    hide Shape, SegsOk, Prepended;
    PrependedAt(s.t, b, n, s2.t);
    forall a: nat
      ensures Is(s2.t, a) <==> Is(s.t, a) || a == b
      ensures Is(s.t, a) ==> a != b && s2.t.head[a] == s.t.head[a]
    {
      PrependChunk(s.t, s.segs, b, n, s2.t, a);
    }
    OkShape(s);
    assert Pool(s2) == Pool(s);
  }

  /** A run of chunks behind one in use is cut into a chunk in use and a free one, or top. */
  lemma CutFront(t: Tags, lo: nat, cut: nat, hi: nat)
    requires Shape(t) && Run(t, lo, hi) && t.head[lo].pinuse && cut % 8 == 0
    requires MIN_CHUNK_SIZE <= cut - lo && cut + MIN_CHUNK_SIZE <= hi
    requires lo <= t.top < hi || t.head[hi].cinuse
    ensures var e := Edit(lo, cut, hi, true, false);
            && hi in t.head && Edits(t, e)
            && Edited(t, e, CutFronted(t, lo, cut, hi))
  {
    hide Shape;
    TopIs(t);
    if lo <= t.top < hi {
      ChunkFacts(t, t.top);
    }
    assert t.head[lo].pinuse;
  }

  ghost function CutFronted(t: Tags, lo: nat, cut: nat, hi: nat): Tags {
    var e := Edit(lo, cut, hi, true, false);
    var rest: nat := if cut < hi then hi - cut else 0;
    var front: nat := if lo < cut then cut - lo else 0;
    if lo <= t.top < hi then
      Cut(t, e, t.head[lo := Head(front, true, true)][cut := Head(rest, true, false)], t.foot)
    else
      var over := if hi in t.head then t.head[hi] else Head(0, false, false);
      Cut(t, e, t.head[lo := Head(front, true, true)][hi := over.(pinuse := false)][cut := Head(rest, true, false)],
          t.foot[hi := rest])
  }

  /** Where the space ends that the new memory and a free first chunk behind it make up. */
  ghost function FirstEnd(t: Tags, f: nat): nat {
    if f in t.head && !t.head[f].cinuse then f + t.head[f].size else f
  }

  ghost predicate FirstKnown(s: State, b: nat, n: nat, s1: State) {
    var f := b + n;
    var hi := FirstEnd(s.t, f);
    && Is(s.t, f) && hi in s.t.head && hi in s1.t.head && s1.t.head[hi] == s.t.head[hi] && f > 0 && f <= hi
    && (f == s.t.top ==> !s.t.head[f].cinuse && hi == f + s.topsize && f !in Pool(s))
    && (f != s.t.top ==>
        s.t.head[hi].cinuse && (f in Pool(s) <==> hi != f)
            && (hi != f ==> Pool(s)[f] == hi - f && !s.t.head[hi].pinuse))
    && (b <= s1.t.top < hi <==> f == s.t.top) && s1.t.top == s.t.top
    && Run(s1.t, b, hi) && Held(s1.segs, b, hi) && b in s1.t.head && s1.t.head[b].pinuse
  }

  /** The first chunk of the segment that the new memory comes before. */
  lemma FirstFacts(s: State, b: nat, n: nat, i: nat, s1: State)
    requires Ok(s) && Prepends(s, b, n, i, s1)
    ensures FirstKnown(s, b, n, s1)
  {
    hide Shape, SegsOk, Prepended, Longer, Run, Held, Pool, FreeAgree;
    PrependsOk(s, b, n, i, s1);
    BaseFacts(s, i);
    PrependedAt(s.t, b, n, s1.t);
    var f := b + n;
    var hi := FirstEnd(s.t, f);
    PrependsSame(s, b, n, i, s1, f);
    PrependsSame(s, b, n, i, s1, s.t.top);
    TopIs(s.t);
    OkParts(s);
    OkParts(s1);
    ChunkFacts(s.t, f);
    PrependsSame(s, b, n, i, s1, Next(s.t, f));
    UnmappedSize(s.segs, b, n);
    NewRun(s1, b);
    FirstPool(s, f);
    assert Border(s.t, f);
    if hi != f {
      RunTwo(s1.t, b, f);
      HeldLimit(s1.segs, s1.t, f);
      HeldJoins(s1.segs, b, f, hi);
    }
  }

  lemma FirstPool(s: State, f: nat)
    requires Ok(s) && Is(s.t, f)
    ensures f in Pool(s) <==> !s.t.head[f].cinuse && f != s.t.top
    ensures f in Pool(s) ==> Pool(s)[f] == s.t.head[f].size
  {
  }

  lemma NewRun(s1: State, b: nat)
    requires Ok(s1) && Is(s1.t, b) && s1.t.head[b].cinuse
    ensures Run(s1.t, b, Next(s1.t, b)) && b != s1.t.top && !(b <= s1.t.top < Next(s1.t, b)) && SegmentsApart(s1.segs)
  {
    hide Apart, BitsAgree, FeetAgree, Run;
    ChunkFacts(s1.t, b);
    RunOne(s1.t, b);
  }

  lemma PrependsSame(s: State, b: nat, n: nat, i: nat, s1: State, x: nat)
    requires Ok(s) && Prepends(s, b, n, i, s1)
    ensures Border(s.t, x) ==> x in s1.t.head && s1.t.head[x] == s.t.head[x] && Border(s1.t, x) && !(b <= x < b + n)
    ensures Is(s.t, x) ==> Is(s1.t, x) && Next(s1.t, x) == Next(s.t, x)
  {
    hide Shape, SegsOk, Prepended, Longer, Pool, FreeAgree;
    OkParts(s);
    OkTiled(s);
    PrependChunk(s.t, s.segs, b, n, s1.t, x);
    UnmappedIsClear(s.t, s.segs, b, n, x);
  }

  lemma OkTiled(s: State)
    requires Ok(s)
    ensures Tiled(s.t)
  {
  }

  /** prepend_alloc: nb bytes at the front of the new memory; the rest joins what follows. */
  ghost predicate PrependTaken(s: State, b: nat, n: nat, nb: nat, s1: State, s2: State) {
    var f := b + n;
    var hi := FirstEnd(s.t, f);
    && 0 < nb && b + nb < hi && hi in s1.t.head && s2.t == CutFronted(s1.t, b, b + nb, hi)
    && Pool(s2) == (if f == s.t.top then Pool(s) else (Pool(s) - {f})[b + nb := hi - b - nb]) && DvOk(s2)
    && s2.topsize == (if f == s.t.top then hi - b - nb else s.topsize)
    && s2.segs == s1.segs && s2.live == s.live + {b}
  }

  lemma PrependGranted(s: State, d: map<nat, bv8>, b: nat, n: nat, i: nat, nb: nat, s1: State, s2: State,
                       d2: map<nat, bv8>)
    requires Ok(s) && Prepends(s, b, n, i, s1) && PrependTaken(s, b, n, nb, s1, s2)
    requires nb % 8 == 0 && MIN_CHUNK_SIZE <= nb && nb + TOP_FOOT_SIZE < n
    requires forall x: nat {:trigger Same(d, d2, x)} :: !(b + 8 <= x < FirstEnd(s.t, b + n) + 16) ==> Same(d, d2, x)
    ensures Ok(s2) && Granted(s, d, s2, d2, b, nb)
  {
    hide Ok, Shape, SegsOk, Prepended, Longer, Run, Held, Pool, FreeAgree, Edits, Edited, PoolStep, Same, CutFronted,
         FirstEnd, Unmapped;
    PrependsOk(s, b, n, i, s1);
    FirstFacts(s, b, n, i, s1);
    OkParts(s1);
    UnmappedSize(s.segs, b, n);
    var hi := FirstEnd(s.t, b + n);
    var e := Edit(b, b + nb, hi, true, false);
    CutFront(s1.t, b, b + nb, hi);
    PrependPool(s, b, n, i, nb, s1, s2, e);
    NoLiveInside(s, b, n, i, s1, hi);
    StepOk(s1, e, s2);
    EditSpares(s1, d, e, s2, d2, {});
    EditedAt(s1.t, e, s2.t);
    PrependLonger(s, b, n, i, s1);
    PrependKept(s, d, b, n, i, s1, s2, d2);
  }

  lemma PrependLonger(s: State, b: nat, n: nat, i: nat, s1: State)
    requires Prepends(s, b, n, i, s1) && n > 0
    ensures s1.segs != s.segs
  {
    assert s1.segs[i].size != s.segs[i].size;
  }

  /** In the new memory and the free chunk behind it there is no other chunk. */
  lemma FirstAlone(s: State, b: nat, n: nat, i: nat, s1: State, a: nat)
    requires Ok(s) && Prepends(s, b, n, i, s1) && Is(s.t, a) && b <= a < FirstEnd(s.t, b + n)
    ensures a == b + n && !s.t.head[a].cinuse
  {
    hide Ok, Shape, SegsOk, Prepended, Longer, Run, Held, Pool;
    OkParts(s);
    FirstFacts(s, b, n, i, s1);
    PrependsSame(s, b, n, i, s1, a);
    ChunkBorder(s, a);
    if b + n <= a {
      NoneInside(s.t, b + n, a);
    }
  }

  lemma ChunkBorder(s: State, a: nat)
    requires Is(s.t, a)
    ensures Border(s.t, a)
  {
  }

  lemma NoLiveInside(s: State, b: nat, n: nat, i: nat, s1: State, hi: nat)
    requires Ok(s) && Prepends(s, b, n, i, s1) && hi == FirstEnd(s.t, b + n)
    ensures forall a <- s.live :: !(b <= a < hi)
  {
    hide Shape, SegsOk, Prepended, Longer, Run, Held, Pool, FreeAgree, FirstEnd;
    forall a | a in s.live && b <= a < hi ensures false {
      FirstAlone(s, b, n, i, s1, a);
    }
  }

  lemma PrependPool(s: State, b: nat, n: nat, i: nat, nb: nat, s1: State, s2: State, e: Edit)
    requires Ok(s) && Prepends(s, b, n, i, s1) && PrependTaken(s, b, n, nb, s1, s2) && nb > 0
    requires e == Edit(b, b + nb, FirstEnd(s.t, b + n), true, false)
    ensures PoolStep(s1.t, e, Pool(s1), Pool(s2))
  {
    hide Ok, Shape, SegsOk, Prepended, Longer, Run, Held, Pool, CutFronted, FirstEnd;
    FirstFacts(s, b, n, i, s1);
    forall a | a in Pool(s) && b <= a < FirstEnd(s.t, b + n) ensures a == b + n {
      PoolChunk(s, a);
      FirstAlone(s, b, n, i, s1, a);
    }
    SamePool(s, s1);
  }

  lemma SamePool(s: State, s1: State)
    requires s1.free == s.free && s1.dv == s.dv && s1.dvsize == s.dvsize
    ensures Pool(s1) == Pool(s)
  {
  }

  lemma PrependKept(s: State, d: map<nat, bv8>, b: nat, n: nat, i: nat, s1: State, s2: State, d2: map<nat, bv8>)
    requires Ok(s) && Prepends(s, b, n, i, s1) && LiveKept(s1, d, s2, d2, {})
    ensures LiveKept(s, d, s2, d2, {})
  {
    hide Shape, SegsOk, Prepended, Longer, Pool, FreeAgree, SamePayload;
    forall a | a in s.live ensures KeptAt(s, d, s2, d2, a) {
      ChunkBorder(s, a);
      PrependsSame(s, b, n, i, s1, a);
      assert KeptAt(s1, d, s2, d2, a);
    }
  }

  // ----- a segment of its own -----------------------------------------------------------------

  /** add_segment: the old top, unless it is too small, becomes an ordinary free chunk. */
  ghost predicate Extends(s: State, base: nat, size: nat, s2: State) {
    && Adds(s.t, s.segs, base, size, s2.t)
    && s2 == s.(t := s2.t, topsize := size - TOP_FOOT_SIZE, segs := [Segment(base, size)] + s.segs,
                free := if s.topsize < MIN_CHUNK_SIZE then s.free else s.free[s.t.top := s.topsize])
  }

  lemma ExtendsOk(s: State, base: nat, size: nat, s2: State)
    requires Ok(s) && Extends(s, base, size, s2)
    ensures Ok(s2)
  {
    hide Shape, SegsOk, Pool, FreeAgree, LiveOk, Adds, Added;
    AddOk(s.t, s.segs, base, size, s2.t);
    AddSegs(s.t, s.segs, base, size, s2.t);
    ExtendPool(s, base, size, s2);
    ExtendFree(s, base, size, s2);
    AddNew(s.t, s.segs, base, size, s2.t);
    AddFacts(s.t, s.segs, base, size, s2.t);
  }

  lemma ExtendPool(s: State, base: nat, size: nat, s2: State)
    requires Ok(s) && Extends(s, base, size, s2)
    ensures Pool(s2) == (if s.topsize < MIN_CHUNK_SIZE then Pool(s) else Pool(s)[s.t.top := s.topsize]) && DvOk(s2)
  {
    hide Shape, SegsOk, Adds;
    TopFacts(s);
  }

  lemma ExtendFree(s: State, base: nat, size: nat, s2: State)
    requires Ok(s) && Extends(s, base, size, s2)
    requires Pool(s2) == if s.topsize < MIN_CHUNK_SIZE then Pool(s) else Pool(s)[s.t.top := s.topsize]
    ensures FreeAgree(s2.t, Pool(s2)) && LiveOk(s2.t, s2.live)
  {
    hide Shape, SegsOk, Added, Pool;
    AddNew(s.t, s.segs, base, size, s2.t);
    AddFacts(s.t, s.segs, base, size, s2.t);
    forall a: nat
      ensures (a in Pool(s2) <==> Free(s2.t, a) && a != s2.t.top)
              && (a in Pool(s2) ==> Pool(s2)[a] == s2.t.head[a].size)
    {
      AddOld(s.t, s.segs, base, size, s2.t, a);
      AddOld(s.t, s.segs, base, size, s2.t, base);
      TopFacts(s);
    }
    forall a | a in s2.live ensures Is(s2.t, a) && s2.t.head[a].cinuse {
      AddOld(s.t, s.segs, base, size, s2.t, a);
    }
  }

  /** All that is written is behind the old top's header or in the new memory. */
  lemma ExtendSpares(s: State, d: map<nat, bv8>, base: nat, size: nat, s2: State, d2: map<nat, bv8>)
    requires Ok(s) && Extends(s, base, size, s2)
    requires forall x: nat {:trigger Same(d, d2, x)} ::
               !(s.t.top + 8 <= x < s.t.top + s.topsize + TOP_FOOT_SIZE) && !(base <= x < base + size) ==>
                   Same(d, d2, x)
    ensures LiveKept(s, d, s2, d2, {})
  {
    hide SegsOk, Shape, FreeAgree, Unmapped, Added, Same;
    OkParts(s);
    OkTiled(s);
    TopFacts(s);
    forall a | a in s.live ensures KeptAt(s, d, s2, d2, a) {
      AddOld(s.t, s.segs, base, size, s2.t, a);
      UnmappedIsClear(s.t, s.segs, base, size, a);
      AroundTop(s.t, s.segs, a);
    }
  }

  /** A chunk granted after the heap has grown is granted. */
  lemma GrantedLater(s: State, d: map<nat, bv8>, s1: State, d1: map<nat, bv8>, s2: State, d2: map<nat, bv8>, p: nat,
                     nb: nat)
    requires LiveKept(s, d, s1, d1, {}) && s1.live == s.live && Granted(s1, d1, s2, d2, p, nb)
             && s.segs != s1.segs == s2.segs
    ensures Granted(s, d, s2, d2, p, nb)
  {
    hide KeptAt;
    LiveKeptTwice(s, d, s1, d1, s2, d2, {});
  }
}
