/** The allocator: malloc, free and realloc over chunks, bins, dv and top. */
module AllocHeap {
  import opened AllocSizes
  import opened AllocShape
  import opened AllocSegments
  import opened AllocNewSegment
  import opened AllocState
  import opened AllocSteps
  import opened AllocFree
  import opened AllocSystem
  import opened AllocRealloc
  import opened AllocBins

  /** What the system answers when it is asked for memory. */
  datatype Answer = Refused | Memory(base: nat)

  /** The heap cannot serve a request of nb bytes: no free chunk and not top is big enough. */
  ghost predicate NoRoom(s: State, nb: nat) {
    s.topsize <= nb && forall a :: a in Pool(s) ==> Pool(s)[a] < nb
  }

  /** Where malloc takes nb bytes from: the best fitting binned chunk, unless dv is to be preferred;
      dv; or top or new memory, but only when nothing else is big enough. A small request prefers dv
      to all but small chunks with at most 8 bytes to spare, a large one to those that fit no better. */
  ghost predicate Chosen(s: State, nb: nat, p: nat) {
    || (p in s.free && nb <= s.free[p] && (forall a :: a in s.free && nb <= s.free[a] ==> s.free[p] <= s.free[a])
        && (nb <= s.dvsize ==> if nb < MIN_LARGE_SIZE then IsSmall(s.free[p]) && s.free[p] <= nb + 8
            else s.free[p] < s.dvsize))
    || (p == s.dv && nb <= s.dvsize
        && forall a :: a in s.free && nb <= s.free[a] ==>
             if nb < MIN_LARGE_SIZE then IsSmall(s.free[a]) ==> nb + 8 < s.free[a] else s.dvsize <= s.free[a])
    || (s.dvsize < nb && (forall a :: a in s.free ==> s.free[a] < nb) && (p == s.t.top || s.topsize <= nb))
  }

  /** The block at p can have nb bytes where it is: it is big enough, or grows into top. */
  ghost predicate InPlace(s: State, p: nat, nb: nat) {
    p in s.t.head
    && (nb <= s.t.head[p].size || (p + s.t.head[p].size == s.t.top && nb < s.t.head[p].size + s.topsize))
  }

  /** The chunk size that malloc looks for: one that no memory has when the request is too big. */
  function ChunkFor(nsize: nat): nat { if nsize >= MAX_REQUEST then SIZE_T_LIMIT - 1 else Request2Size(nsize) }

  /** malloc_state, padded, with its header. */
  const STATE_SIZE: nat := 872

  ghost predicate FreshHeap(base: nat, s: State) {
    && s.t.starts == {base, base + STATE_SIZE} && s.t.top == base + STATE_SIZE
    && s.t.ends == {base + (GRANULARITY - TOP_FOOT_SIZE)}
    && s.t.head == map[base := Head(STATE_SIZE, true, true),
                       base + STATE_SIZE := Head(GRANULARITY - TOP_FOOT_SIZE - STATE_SIZE, true, false),
                       base + (GRANULARITY - TOP_FOOT_SIZE) := Head(TOP_FOOT_SIZE, false, false)]
    && s.topsize == GRANULARITY - TOP_FOOT_SIZE - STATE_SIZE && s.dv == 0 && s.dvsize == 0 && s.free == map[]
    && s.live == {}
    && s.segs == [Segment(base, GRANULARITY)]
  }

  lemma FreshOk(base: nat, s: State)
    requires Unmapped([], base, GRANULARITY) && FreshHeap(base, s)
    ensures Ok(s)
  {
    hide Shape, AllHeld, TopLast;
    FreshShape(base, s);
    FreshHeld(base, s);
    FreshTopLast(base, s);
  }

  lemma FreshShape(base: nat, s: State)
    requires Unmapped([], base, GRANULARITY) && FreshHeap(base, s)
    ensures Shape(s.t)
  {
    var t := s.t;
    assert Is(t, base) && Is(t, t.top) && Border(t, Next(t, t.top));
  }

  lemma FreshHeld(base: nat, s: State)
    requires Unmapped([], base, GRANULARITY) && FreshHeap(base, s)
    ensures AllHeld(s.t, s.segs)
  {
    assert HeldBy(s.segs, 0, base, base + STATE_SIZE);
    assert HeldBy(s.segs, 0, base + STATE_SIZE, base + (GRANULARITY - TOP_FOOT_SIZE));
    assert HeldBy(s.segs, 0, base + (GRANULARITY - TOP_FOOT_SIZE), base + (GRANULARITY - TOP_FOOT_SIZE));
  }

  lemma FreshTopLast(base: nat, s: State)
    requires Unmapped([], base, GRANULARITY) && FreshHeap(base, s)
    ensures Is(s.t, s.t.top) && TopLast(s.t, s.segs)
  {
    assert s.segs[0] in s.segs;
  }

  class Heap {
    const bins: Bins
    var head: map<nat, Head>
    var foot: map<nat, nat>
    var top: nat
    var topsize: nat
    var dv: nat
    var dvsize: nat
    var segs: seq<Segment>
    /** The bytes of memory whose value is known: all but those that header words overwrite. */
    var data: map<nat, bv8>
    ghost var starts: set<nat>
    ghost var ends: set<nat>
    ghost var live: set<nat>

    ghost function Snap(): State
      reads this, bins
    {
      State(Tags(head, foot, starts, ends, top), topsize, dv, dvsize, bins.free, segs, live)
    }

    ghost predicate Valid()
      reads this, bins
    {
      bins.Valid() && Ok(Snap())
    }

    /** lj_alloc_create in the memory at base: the allocator's own record is the first chunk. */
    constructor (base: nat)
      requires Unmapped([], base, GRANULARITY)
      ensures Valid() && live == {} && fresh(bins) && data == map[]
    {
      bins := new Bins();
      top := base + STATE_SIZE;
      topsize := GRANULARITY - TOP_FOOT_SIZE - STATE_SIZE;
      dv, dvsize := 0, 0;
      segs := [Segment(base, GRANULARITY)];
      head := map[base := Head(STATE_SIZE, true, true),
                  base + STATE_SIZE := Head(GRANULARITY - TOP_FOOT_SIZE - STATE_SIZE, true, false),
                  base + (GRANULARITY - TOP_FOOT_SIZE) := Head(TOP_FOOT_SIZE, false, false)];
      foot := map[];
      starts := {base, base + STATE_SIZE};
      ends := {base + (GRANULARITY - TOP_FOOT_SIZE)};
      live := {};
      data := map[];
      new;
      FreshOk(base, Snap());
    }

    // ----- header words ----------------------------------------------------------------

    method SetHead(a: nat, h: Head)
      modifies this`head, this`data
      ensures head == old(head)[a := h] && data == old(data) - Span(a + 8, a + 16)
    {
      head := head[a := h];
      data := data - Span(a + 8, a + 16);
    }

    method SetFoot(a: nat, s: nat)
      modifies this`foot, this`data
      ensures foot == old(foot)[a := s] && data == old(data) - Span(a, a + 8)
    {
      foot := foot[a := s];
      data := data - Span(a, a + 8);
    }

    /** set_inuse_and_pinuse. */
    method SetInuseAndPinuse(p: nat, s: nat)
      requires p + s in head && s > 0
      modifies this`head, this`data
      ensures head == old(head)[p := Head(s, true, true)][p + s := old(head)[p + s].(pinuse := true)]
      ensures data == old(data) - Span(p + 8, p + 16) - Span(p + s + 8, p + s + 16)
    {
      SetHead(p, Head(s, true, true));
      SetHead(p + s, head[p + s].(pinuse := true));
    }

    /** set_size_and_pinuse_of_free_chunk. */
    method SetSizeAndPinuseOfFree(p: nat, s: nat)
      modifies this`head, this`foot, this`data
      ensures head == old(head)[p := Head(s, true, false)] && foot == old(foot)[p + s := s]
      ensures data == old(data) - Span(p + 8, p + 16) - Span(p + s, p + s + 8)
    {
      SetHead(p, Head(s, true, false));
      SetFoot(p + s, s);
    }

    /** set_free_with_pinuse. */
    method SetFreeWithPinuse(p: nat, s: nat, n: nat)
      requires n in head
      modifies this`head, this`foot, this`data
      ensures head == old(head)[n := old(head)[n].(pinuse := false)][p := Head(s, true, false)]
              && foot == old(foot)[p + s := s]
      ensures data == old(data) - Span(n + 8, n + 16) - Span(p + 8, p + 16) - Span(p + s, p + s + 8)
    {
      SetHead(n, head[n].(pinuse := false));
      SetSizeAndPinuseOfFree(p, s);
    }

    /** replace_dv: the old dv goes to its small bin. */
    method ReplaceDv(p: nat, s: nat)
      requires bins.Valid() && (dvsize != 0 ==> dv !in bins.free && SizeOk(dvsize) && IsSmall(dvsize))
      modifies bins, this`dv, this`dvsize
      ensures bins.Valid() && dv == p && dvsize == s
      ensures bins.free == if old(dvsize) != 0 then old(bins.free)[old(dv) := old(dvsize)] else old(bins.free)
    {
      if dvsize != 0 {
        bins.InsertChunk(dv, dvsize);
      }
      dvsize := s;
      dv := p;
    }

    // ----- malloc ----------------------------------------------------------------------

    /** Takes nb bytes of the binned free chunk p, already unlinked: all of it when the rest
        would be too small. The rest becomes dv, or goes to a bin. s: the heap with p in its bin. */
    method Carve(p: nat, size: nat, nb: nat, toDv: bool, ghost s: State)
      requires bins.Valid() && Ok(s) && p in s.free && s.free[p] == size && Snap() == s.(free := s.free - {p})
      requires nb % 8 == 0 && MIN_CHUNK_SIZE <= nb <= size && (toDv ==> dvsize < MIN_LARGE_SIZE)
      modifies this`head, this`foot, this`data, this`dv, this`dvsize, this`starts, this`live, bins
      ensures Valid() && Granted(s, old(data), Snap(), data, p, nb)
    {
      hide *;
      if size - nb < MIN_CHUNK_SIZE {
        CarveWhole(p, size, s);
        GrantedLess(s, old(data), Snap(), data, p, size, nb);
      } else {
        CarveFront(p, size, nb, toDv, s);
      }
    }

    method CarveWhole(p: nat, size: nat, ghost s: State)
      requires bins.Valid() && Ok(s) && p in s.free && s.free[p] == size && Snap() == s.(free := s.free - {p})
      modifies this`head, this`data, this`live
      ensures Valid() && Granted(s, old(data), Snap(), data, p, size)
      ensures p in Snap().t.head && Snap().t.head[p].size == size
    {
      hide Ok, Shape, SegsOk, FreeAgree, Held, Span, Granted, Pool, SmallOk, TreeOk, SizesOk;
      DvApart(s);
      InPool(s, p);
      CarveFacts(s, p);
      SetInuseAndPinuse(p, size);
      live := live + {p};
      CarvedWhole(s, old(data), Snap(), data, p);
    }

    method CarveFront(p: nat, size: nat, nb: nat, toDv: bool, ghost s: State)
      requires bins.Valid() && Ok(s) && p in s.free && s.free[p] == size && Snap() == s.(free := s.free - {p})
      requires nb % 8 == 0 && MIN_CHUNK_SIZE <= nb && nb + MIN_CHUNK_SIZE <= size && (toDv ==> dvsize < MIN_LARGE_SIZE)
      modifies this`head, this`foot, this`data, this`dv, this`dvsize, this`starts, this`live, bins
      ensures Valid() && Granted(s, old(data), Snap(), data, p, nb)
    {
      hide Ok, Shape, SegsOk, FreeAgree, Held, Span, Granted, Cut, SizeOk, SmallOk, TreeOk, SizesOk;
      DvSize(s);
      RestSize(s, p, nb);
      CarveTop(s, p);
      SplitFront(p, nb, size);
      live := live + {p};
      if toDv {
        ReplaceDv(p + nb, size - nb);
      } else {
        bins.InsertChunk(p + nb, size - nb);
      }
      assert Snap() == FrontTaken(s, p, nb, toDv);
      CarvedFront(s, old(data), Snap(), data, p, nb, toDv);
    }

    /** The first chunk of small bin i, for a request of nb bytes: whole, or with the rest as dv. */
    method TakeSmall(i: nat, nb: nat) returns (p: nat)
      requires Valid() && i in bins.smallmap && nb % 8 == 0 && MIN_CHUNK_SIZE <= nb <= 8 * i
      requires 8 * i - nb < MIN_CHUNK_SIZE || dvsize < MIN_LARGE_SIZE
      modifies this, bins
      ensures Valid() && Granted(old(Snap()), old(data), Snap(), data, p, nb) && segs == old(segs)
      ensures p in old(bins.free) && old(bins.free)[p] == 8 * i
    {
      hide Ok, SmallOk, TreeOk, SizesOk, Granted, IsSmall;
      ghost var s := Snap();
      p := bins.TakeFirstSmall(i);
      if 8 * i - nb < MIN_CHUNK_SIZE {
        CarveWhole(p, 8 * i, s);
        GrantedLess(s, old(data), Snap(), data, p, 8 * i, nb);
      } else {
        CarveFront(p, 8 * i, nb, true, s);
      }
    }

    /** tmalloc_small: from the smallest large chunk. */
    method TmallocSmall(nb: nat) returns (p: nat)
      requires Valid() && bins.treemap != {} && nb % 8 == 0 && MIN_CHUNK_SIZE <= nb < MIN_LARGE_SIZE
               && dvsize < MIN_LARGE_SIZE
      modifies this, bins
      ensures Valid() && Granted(old(Snap()), old(data), Snap(), data, p, nb) && segs == old(segs)
      ensures p in old(bins.free) && !IsSmall(old(bins.free)[p])
      ensures forall a :: a in old(bins.free) && !IsSmall(old(bins.free)[a]) ==> old(bins.free)[p] <= old(bins.free)[a]
    {
      hide Ok, SmallOk, TreeOk, SizesOk, Granted;
      ghost var s := Snap();
      var v := bins.FindSmallest(nb);
      p := v.addr;
      bins.UnlinkChunk(p, v.size);
      Carve(p, v.size, nb, true, s);
    }

    /** tmalloc_large: from the best fitting large chunk, unless dv fits at least as well. */
    method TmallocLarge(nb: nat) returns (r: Found)
      requires Valid() && nb % 8 == 0 && MIN_LARGE_SIZE <= nb < SIZE_T_LIMIT
      modifies this, bins
      ensures Valid() && segs == old(segs) && (r.Chunk? ==> Granted(old(Snap()), old(data), Snap(), data, r.addr, nb))
      ensures r.Chunk? ==> r.addr in old(bins.free) && old(bins.free)[r.addr] == r.size && nb <= r.size
                           && !IsSmall(r.size)
      ensures forall a :: a in old(bins.free) && !IsSmall(old(bins.free)[a]) && nb <= old(bins.free)[a] ==>
                if r.Chunk? then r.size <= old(bins.free)[a] && !(nb <= old(dvsize) <= r.size)
                else nb <= dvsize <= old(bins.free)[a]
      ensures r.Chunk? ==> Chosen(old(Snap()), nb, r.addr)
      ensures r.None? ==> Snap() == old(Snap()) && data == old(data)
    {
      hide Ok, SmallOk, TreeOk, SizesOk, Granted;
      ghost var s := Snap();
      DvBelow(s);
      r := bins.FindLarge(nb);
      if r.Chunk? {
        bins.FreeSizes(r);
        if r.size - nb < Sub(dvsize, nb) {
          bins.UnlinkChunk(r.addr, r.size);
          Carve(r.addr, r.size, nb, false, s);
        } else {
          r := None;
        }
      }
    }

    /** From dv: its front, or all of it. */
    method TakeDv(nb: nat) returns (p: nat)
      requires Valid() && nb % 8 == 0 && MIN_CHUNK_SIZE <= nb <= dvsize
      modifies this
      ensures Valid() && Granted(old(Snap()), old(data), Snap(), data, p, nb) && segs == old(segs) && p == old(dv)
    {
      hide *;
      p := dv;
      if dvsize - nb >= MIN_CHUNK_SIZE {
        SplitDv(nb);
      } else {
        ghost var s, dvs := Snap(), dvsize;
        ExhaustDv();
        GrantedLess(s, old(data), Snap(), data, p, dvs, nb);
      }
    }

    method SplitDv(nb: nat)
      requires Valid() && nb % 8 == 0 && MIN_CHUNK_SIZE <= nb && nb + MIN_CHUNK_SIZE <= dvsize
      modifies this
      ensures Valid() && Granted(old(Snap()), old(data), Snap(), data, old(dv), nb) && segs == old(segs)
    {
      hide Ok, SmallOk, TreeOk, SizesOk, Granted, Shape, SegsOk, FreeAgree, Held, Span, Pool, Cut;
      ghost var s := Snap();
      DvNotTop(s);
      var p := dv;
      SplitFront(p, nb, dvsize);
      live := live + {p};
      dv := p + nb;
      dvsize := dvsize - nb;
      assert Snap() == DvFrontTaken(s, nb);
      TookDvFront(s, old(data), Snap(), data, nb);
    }

    method ExhaustDv()
      requires Valid() && dvsize != 0
      modifies this
      ensures Valid() && Granted(old(Snap()), old(data), Snap(), data, old(dv), old(dvsize)) && segs == old(segs)
      ensures old(dv) in Snap().t.head && Snap().t.head[old(dv)].size == old(dvsize)
    {
      hide Ok, SmallOk, TreeOk, SizesOk, Granted, Shape, SegsOk, FreeAgree, Held, Span, Pool, CutStarts;
      ghost var s := Snap();
      DvSize(s);
      CarveFacts(s, dv);
      InPool(s, dv);
      live := live + {dv};
      var dvs := dvsize;
      var p := dv;
      dvsize := 0;
      dv := 0;
      SetInuseAndPinuse(p, dvs);
      TookDv(s, old(data), Snap(), data);
    }

    /** From the front of top. */
    method TakeFromTop(nb: nat) returns (p: nat)
      requires Valid() && nb % 8 == 0 && MIN_CHUNK_SIZE <= nb < topsize
      modifies this
      ensures Valid() && Granted(old(Snap()), old(data), Snap(), data, p, nb) && segs == old(segs) && p == old(top)
    {
      hide Ok, SmallOk, TreeOk, SizesOk, Granted, Shape, SegsOk, FreeAgree, Held, Span, Pool, CutStarts;
      ghost var s := Snap();
      var rsize := topsize - nb;
      p := top;
      starts := CutStarts(starts, Edit(p, p + nb, p + topsize, true, false));
      topsize := rsize;
      top := p + nb;
      SetHead(top, Head(rsize, true, false));
      SetHead(p, Head(nb, true, true));
      live := live + {p};
      TookTop(s, old(data), Snap(), data, nb);
    }

    // ----- free ------------------------------------------------------------------------

    /** lj_alloc_free: nothing for the null pointer. */
    method Free(mem: nat)
      requires Valid() && (mem == 0 || (mem >= 16 && mem - 16 in live))
      modifies this, bins
      ensures Valid() && segs == old(segs)
      ensures if mem == 0 then Snap() == old(Snap()) && data == old(data)
              else Released(old(Snap()), old(data), Snap(), data, mem - 16)
    {
      hide *;
      if mem != 0 {
        FreeChunk(mem - 16);
      }
    }

    method FreeChunk(p0: nat)
      requires Valid() && p0 in live
      modifies this, bins
      ensures Valid() && segs == old(segs) && Released(old(Snap()), old(data), Snap(), data, p0)
    {
      hide Ok, Shape, Run, Held, Hi, Released, Cut, SmallOk, TreeOk, SizesOk;
      ghost var s := Snap();
      PrevFacts(s, p0);
      ForwardFacts(s, p0);
      DvApart(s);
      var psize := head[p0].size;
      var next := p0 + psize;
      live := live - {p0};
      if head[p0].pinuse {
        FreeForward(p0, psize, next, p0, s);
      } else {
        var prevsize := foot[p0];
        var prev := p0 - prevsize;
        if prev != dv {
          bins.UnlinkChunk(prev, prevsize);
          FreeForward(prev, psize + prevsize, next, p0, s);
        } else if head[next].cinuse {
          FreeIntoDv(prev, psize + prevsize, next, p0, s);
        } else {
          FreeForward(prev, psize + prevsize, next, p0, s);
        }
      }
    }

    /** dv takes in the chunk behind it. */
    method FreeIntoDv(p: nat, psize: nat, next: nat, ghost p0: nat, ghost s: State)
      requires bins.Valid() && Freeing(s, p0, p, Snap()) && next in head && psize == next - p
               && next == p0 + head[p0].size
      requires dvsize != 0 && p == dv && head[next].cinuse && next != p
      modifies this, bins
      ensures Valid() && segs == old(segs) && Released(s, old(data), Snap(), data, p0)
    {
      hide Ok, Shape, Run, Held, Pool, Lo, Hi, Released, CutStarts, SmallOk, TreeOk, SizesOk, Span;
      ForwardFacts(s, p0);
      DvApart(s);
      dvsize := psize;
      SetFreeWithPinuse(p, psize, next);
      starts := CutStarts(starts, JoinEdit(p, next));
      InPool(s, next);
      PoolDv(s, p, next, psize, Snap());
      FreedPlainly(s, old(data), p0, Snap(), data);
    }

    /** The rest of free: the chunk behind, and where the joined chunk goes. */
    method FreeForward(p: nat, psize: nat, next: nat, ghost p0: nat, ghost s: State)
      requires bins.Valid() && Freeing(s, p0, p, Snap()) && next in head && psize == next - p
               && next == p0 + head[p0].size && next >= p
      requires dvsize != 0 && p == dv ==> !head[next].cinuse
      modifies this, bins
      ensures Valid() && segs == old(segs) && Released(s, old(data), Snap(), data, p0)
    {
      hide Ok, Shape, Run, Held, Lo, Hi, Released, CutStarts, SmallOk, TreeOk, SizesOk, Span;
      ForwardFacts(s, p0);
      DvApart(s);
      if !head[next].cinuse {
        if next == top {
          JoinWithTop(p, psize, next, p0, s);
        } else if next == dv {
          JoinWithDv(p, psize, next, p0, s);
        } else {
          JoinWithFree(p, psize, next, p0, s);
        }
      } else {
        InPool(s, next);
        SetFreeWithPinuse(p, psize, next);
        starts := CutStarts(starts, JoinEdit(p, next));
        assert bins.free == s.free - {p, next};
        BinFreed(p, psize, p0, s, old(data));
      }
    }

    /** The joined chunk, its header words written, goes to its bin. */
    method BinFreed(p: nat, psize: nat, ghost p0: nat, ghost s: State, ghost d: map<nat, bv8>)
      requires Live(s, p0) && Is(s.t, p0) && p == Lo(s.t, p0) && p + psize == Hi(s.t, p0) && !(p <= s.t.top < p + psize)
               && p + psize in s.t.head && psize > 0
      requires bins.Valid()
      requires Snap() == s.(live := s.live - {p0}, free := s.free - {p, Next(s.t, p0)}, t := Joined(s.t, p, p + psize))
      requires dvsize != 0 ==> p != dv && Next(s.t, p0) != dv
      requires forall x: nat {:trigger Same(d, data, x)} :: !(p + 8 <= x < p + psize + 16) ==> Same(d, data, x)
      modifies bins
      ensures Valid() && Released(s, d, Snap(), data, p0)
    {
      hide Ok, Shape, Run, Held, Pool, Lo, Hi, Released, Cut, SmallOk, TreeOk, SizesOk, Span, Joined, Same;
      ForwardFacts(s, p0);
      DvApart(s);
      bins.InsertChunk(p, psize);
      assert bins.free == (s.free - {p, Next(s.t, p0)})[p := psize];
      PoolBinned(s, p, Next(s.t, p0), psize, Snap());
      FreedPlainly(s, d, p0, Snap(), data);
    }

    /** Top takes in the chunks before it. */
    method JoinWithTop(p: nat, psize: nat, next: nat, ghost p0: nat, ghost s: State)
      requires bins.Valid() && Freeing(s, p0, p, Snap()) && next in head && psize == next - p
               && next == p0 + head[p0].size && next >= p
      requires next == top
      modifies this
      ensures Valid() && segs == old(segs) && Released(s, old(data), Snap(), data, p0)
    {
      hide Ok, Shape, Run, Held, Pool, Lo, Hi, Released, CutStarts, SmallOk, TreeOk, SizesOk, Span;
      ForwardFacts(s, p0);
      DvApart(s);
      var tsize := topsize + psize;
      topsize := tsize;
      top := p;
      SetHead(p, Head(tsize, true, false));
      if p == dv {
        dv := 0;
        dvsize := 0;
      }
      starts := CutStarts(starts, JoinEdit(p, p + tsize));
      PoolTop(s, p, Snap());
      FreedToTop(s, old(data), p0, Snap(), data);
    }

    /** dv takes in the chunks before it. */
    method JoinWithDv(p: nat, psize: nat, next: nat, ghost p0: nat, ghost s: State)
      requires bins.Valid() && Freeing(s, p0, p, Snap()) && next in head && psize == next - p
               && next == p0 + head[p0].size && next >= p
      requires next == dv && !head[next].cinuse && next != top
      modifies this
      ensures Valid() && segs == old(segs) && Released(s, old(data), Snap(), data, p0)
    {
      hide Ok, Shape, Run, Held, Pool, Lo, Hi, Released, CutStarts, SmallOk, TreeOk, SizesOk, Span;
      ForwardFacts(s, p0);
      DvApart(s);
      InPool(s, next);
      var dsize := dvsize + psize;
      dvsize := dsize;
      dv := p;
      JoinWords(p, dsize);
      PoolDv(s, p, next, dsize, Snap());
      FreedPlainly(s, old(data), p0, Snap(), data);
    }

    /** The header words of a joined chunk, before a chunk that already knows of a free one. */
    method JoinWords(p: nat, size: nat)
      requires size > 0 && p + size in head && !head[p + size].pinuse && !(p <= top < p + size)
      modifies this`head, this`foot, this`data, this`starts
      ensures Tags(head, foot, starts, ends, top) == Joined(old(Tags(head, foot, starts, ends, top)), p, p + size)
      ensures data == old(data) - Span(p + 8, p + 16) - Span(p + size, p + size + 8)
    {
      hide Span, CutStarts;
      ghost var h := head;
      SetSizeAndPinuseOfFree(p, size);
      starts := CutStarts(starts, JoinEdit(p, p + size));
      assert head == h[p + size := h[p + size].(pinuse := false)][p := Head(size, true, false)];
    }

    /** A binned chunk behind is unlinked and joined. */
    method JoinWithFree(p: nat, psize: nat, next: nat, ghost p0: nat, ghost s: State)
      requires bins.Valid() && Freeing(s, p0, p, Snap()) && next in head && psize == next - p
               && next == p0 + head[p0].size && next >= p
      requires next != dv && !head[next].cinuse && next != top
      modifies this, bins
      ensures Valid() && segs == old(segs) && Released(s, old(data), Snap(), data, p0)
    {
      hide Ok, Shape, Run, Held, Lo, Hi, Released, Joined, SmallOk, TreeOk, SizesOk, Span;
      ForwardFacts(s, p0);
      DvApart(s);
      InPool(s, next);
      var nsize := head[next].size;
      bins.UnlinkChunk(next, nsize);
      assert bins.free == s.free - {p, next};
      var size := psize + nsize;
      JoinWords(p, size);
      if p == dv {
        dvsize := size;
        PoolDv(s, p, next, size, Snap());
        FreedPlainly(s, old(data), p0, Snap(), data);
        return;
      }
      BinFreed(p, size, p0, s, old(data));
    }

    // ----- memory from the system ------------------------------------------------------

    /** init_top. */
    method InitTop(p: nat, psize: nat)
      requires psize > 0
      modifies this`top, this`topsize, this`head, this`data
      ensures top == p && topsize == psize
      ensures head == old(head)[p := Head(psize, true, false)][p + psize := Head(TOP_FOOT_SIZE, false, false)]
      ensures data == old(data) - Span(p + 8, p + 16) - Span(p + psize + 8, p + psize + 16)
    {
      top := p;
      topsize := psize;
      SetHead(p, Head(psize, true, false));
      SetHead(p + psize, Head(TOP_FOOT_SIZE, false, false));
    }

    /** The new memory is behind the segment of top: top grows. */
    method Append(i: nat, n: nat)
      requires Valid() && i < |segs| && Unmapped(segs, End(segs[i]), n) && segs[i].base <= top < End(segs[i]) && n > 0
      modifies this
      ensures Valid() && live == old(live) && LiveKept(old(Snap()), old(data), Snap(), data, {})
              && topsize == old(topsize) + n && segs != old(segs)
    {
      hide Ok, Shape, SegsOk, Span, LiveKept, Pool, SmallOk, TreeOk, SizesOk, Unmapped;
      ghost var s := Snap();
      TopSegment(s, i);
      TopFacts(s);
      segs := segs[i := Segment(segs[i].base, segs[i].size + n)];
      assert segs[i].size != s.segs[i].size;
      ends := ends - {top + topsize} + {top + topsize + n};
      InitTop(top, topsize + n);
      assert Appends(s, n, i, Snap());
      AppendsOk(s, n, i, Snap());
      AppendSpares(s, old(data), n, i, Snap(), data);
    }

    /** prepend_alloc: the new memory is before segment i. Its front is taken; the rest joins the
        first chunk behind it if that is top, dv or free. */
    method PrependAlloc(i: nat, base: nat, n: nat, nb: nat) returns (p: nat)
      requires Valid() && i < |segs| && Unmapped(segs, base, n) && segs[i].base == base + n
      requires nb % 8 == 0 && MIN_CHUNK_SIZE <= nb && nb + TOP_FOOT_SIZE < n
      modifies this, bins
      ensures Valid() && Granted(old(Snap()), old(data), Snap(), data, p, nb)
    {
      hide Ok, Shape, SegsOk, Span, LiveKept, Pool, SmallOk, TreeOk, SizesOk, Unmapped, Granted, Longer, Run, Held;
      ghost var s := Snap();
      p := base;
      var oldfirst := base + n;
      ghost var s1 := Joining(s, base, n, i);
      FirstFacts(s, base, n, i, s1);
      segs := Longer(segs, i, base, n);
      if oldfirst == top {
        PrependToTop(i, base, n, nb, s, s1);
      } else if oldfirst == dv {
        PrependToDv(i, base, n, nb, s, s1);
      } else {
        PrependToChunk(i, base, n, nb, s, s1);
      }
    }

    /** What holds when prepend_alloc has recorded the longer segment. */
    ghost predicate Preparing(i: nat, p: nat, n: nat, nb: nat, s: State, s1: State)
      reads this, bins
    {
      && bins.Valid() && i < |s.segs| && s1 == Joining(s, p, n, i) && Snap() == s.(segs := s1.segs) && Ok(s)
      && Prepends(s, p, n, i, s1)
      && nb % 8 == 0 && MIN_CHUNK_SIZE <= nb && nb + TOP_FOOT_SIZE < n
    }

    method PrependToTop(ghost i: nat, p: nat, n: nat, nb: nat, ghost s: State, ghost s1: State)
      requires Preparing(i, p, n, nb, s, s1) && p + n == top
      modifies this
      ensures Valid() && Granted(s, old(data), Snap(), data, p, nb)
    {
      hide Ok, Shape, SegsOk, Span, LiveKept, SmallOk, TreeOk, SizesOk, Granted, CutFronted, Prepends, Run, Held,
           Longer;
      FirstFacts(s, p, n, i, s1);
      DvApart(s);
      PrependTopWords(p, n, nb, s, s1);
      live := live + {p};
      hide Cut, CutFronted;
      assert PrependTaken(s, p, n, nb, s1, Snap());
      hide PrependTaken;
      PrependGranted(s, old(data), p, n, i, nb, s1, Snap(), data);
    }

    method PrependTopWords(p: nat, n: nat, nb: nat, ghost s: State, ghost s1: State)
      requires 0 < nb < n && p + n == top
               && s1.t == s.t.(head := s.t.head[p := Head(n, true, true)], starts := s.t.starts + {p})
      requires Tags(head, foot, starts, ends, top) == s.t && topsize > 0
      modifies this`head, this`data, this`starts, this`top, this`topsize
      ensures topsize == old(topsize) + n - nb
      ensures Tags(head, foot, starts, ends, top) == CutFronted(s1.t, p, p + nb, p + n + old(topsize))
      ensures data == old(data) - Span(p + 8, p + 16) - Span(p + nb + 8, p + nb + 16)
    {
      hide Span, CutStarts;
      SetHead(p, Head(nb, true, true));
      var q := p + nb;
      var tsize := topsize + (n - nb);
      topsize := tsize;
      top := q;
      SetHead(q, Head(tsize, true, false));
      starts := CutStarts(s1.t.starts, Edit(p, q, q + tsize, true, false));
      assert head == s1.t.head[p := Head(nb, true, true)][q := Head(tsize, true, false)];
    }

    method PrependToDv(ghost i: nat, p: nat, n: nat, nb: nat, ghost s: State, ghost s1: State)
      requires Preparing(i, p, n, nb, s, s1) && p + n == dv && p + n != top
      modifies this
      ensures Valid() && Granted(s, old(data), Snap(), data, p, nb)
    {
      hide Ok, Shape, SegsOk, Span, LiveKept, SmallOk, TreeOk, SizesOk, Granted, CutFronted, Prepends, Run, Held,
           Longer, Pool;
      FirstFacts(s, p, n, i, s1);
      DvApart(s);
      InPool(s, dv);
      var q := p + nb;
      var dsize := dvsize + (n - nb);
      dvsize := dsize;
      dv := q;
      PrependWords(p, n, nb, dsize, s, s1);
      live := live + {p};
      DvMoved(s, Snap(), q, dsize);
      NotBinned(s, p, n, i, s1, q);
      PrependGranted(s, old(data), p, n, i, nb, s1, Snap(), data);
    }

    /** The header words of the front and of the free rest, before a chunk that knows of it. */
    method PrependWords(p: nat, ghost n: nat, nb: nat, rest: nat, ghost s: State, ghost s1: State)
      requires 0 < nb && 0 < rest
               && s1.t == s.t.(head := s.t.head[p := Head(n, true, true)], starts := s.t.starts + {p})
      requires Tags(head, foot, starts, ends, top) == s.t && !(p <= top < p + nb + rest)
      requires p + nb + rest in head && !head[p + nb + rest].pinuse
      modifies this`head, this`foot, this`data, this`starts
      ensures Tags(head, foot, starts, ends, top) == CutFronted(s1.t, p, p + nb, p + nb + rest)
      ensures data == old(data) - Span(p + 8, p + 16) - Span(p + nb + 8, p + nb + 16)
              - Span(p + nb + rest, p + nb + rest + 8)
    {
      hide Span, CutStarts;
      SetHead(p, Head(nb, true, true));
      SetSizeAndPinuseOfFree(p + nb, rest);
      starts := CutStarts(s1.t.starts, Edit(p, p + nb, p + nb + rest, true, false));
      ghost var hi := p + nb + rest;
      assert head == s1.t.head[p := Head(nb, true, true)][hi := s1.t.head[hi].(pinuse := false)]
             [p + nb := Head(rest, true, false)];
    }

    method PrependToChunk(ghost i: nat, p: nat, n: nat, nb: nat, ghost s: State, ghost s1: State)
      requires Preparing(i, p, n, nb, s, s1) && p + n != dv && p + n != top
      modifies this, bins
      ensures Valid() && Granted(s, old(data), Snap(), data, p, nb)
    {
      hide Ok, Shape, SegsOk, Span, LiveKept, SmallOk, TreeOk, SizesOk, Granted, CutFronted, Prepends, Run, Held,
           Longer;
      FirstFacts(s, p, n, i, s1);
      DvApart(s);
      SetHead(p, Head(nb, true, true));
      var q := p + nb;
      var qsize := n - nb;
      var oldfirst := p + n;
      if !head[oldfirst].cinuse {
        var nsize := head[oldfirst].size;
        bins.UnlinkChunk(oldfirst, nsize);
        oldfirst := oldfirst + nsize;
        qsize := qsize + nsize;
      }
      assert bins.free == s.free - {p + n};
      PrependClear(p, n, nb, qsize, oldfirst, s, s1);
      live := live + {p};
      PrependBin(i, p, n, nb, qsize, s, s1, old(data));
    }

    method PrependClear(p: nat, ghost n: nat, nb: nat, rest: nat, hi: nat, ghost s: State, ghost s1: State)
      requires 0 < nb && 0 < rest && hi == p + nb + rest
               && s1.t == s.t.(head := s.t.head[p := Head(n, true, true)], starts := s.t.starts + {p})
      requires Tags(head, foot, starts, ends, top) == s.t.(head := s.t.head[p := Head(nb, true, true)])
               && !(p <= top < hi) && hi in s.t.head
      modifies this`head, this`foot, this`data, this`starts
      ensures Tags(head, foot, starts, ends, top) == CutFronted(s1.t, p, p + nb, hi)
      ensures data == old(data) - Span(hi + 8, hi + 16) - Span(p + nb + 8, p + nb + 16) - Span(hi, hi + 8)
    {
      hide Span, CutStarts;
      SetFreeWithPinuse(p + nb, rest, hi);
      starts := CutStarts(s1.t.starts, Edit(p, p + nb, hi, true, false));
      assert head == s1.t.head[p := Head(nb, true, true)][hi := s1.t.head[hi].(pinuse := false)]
             [p + nb := Head(rest, true, false)];
    }

    method PrependBin(ghost i: nat, p: nat, n: nat, nb: nat, qsize: nat, ghost s: State, ghost s1: State,
                      ghost d: map<nat, bv8>)
      requires i < |s.segs| && s1 == Joining(s, p, n, i)
      requires nb % 8 == 0 && MIN_CHUNK_SIZE <= nb && nb + TOP_FOOT_SIZE < n && p + n != s.dv && p + n != s.t.top
      requires FirstEnd(s.t, p + n) == p + nb + qsize && qsize > 0
      requires Snap()
               == s.(t := CutFronted(s1.t, p, p + nb, p + nb + qsize), free := s.free - {p + n}, segs := s1.segs,
                     live := s.live + {p})
      requires forall x: nat {:trigger Same(d, data, x)} :: !(p + 8 <= x < p + nb + qsize + 16) ==> Same(d, data, x)
      requires bins.Valid() && Ok(s) && Prepends(s, p, n, i, s1)
      modifies bins
      ensures Valid() && Granted(s, d, Snap(), data, p, nb)
    {
      hide Ok, Shape, SegsOk, Span, LiveKept, SmallOk, TreeOk, SizesOk, Granted, Prepends, Run, Held, Longer,
           CutFronted, Same, Unmapped;
      FirstFacts(s, p, n, i, s1);
      DvApart(s);
      NotBinned(s, p, n, i, s1, p + nb);
      PrependSize(s, p, n, i, nb, s1);
      bins.InsertChunk(p + nb, qsize);
      PrependGranted(s, d, p, n, i, nb, s1, Snap(), data);
    }

    /** The trailing fenceposts of an old segment, from f on. */
    method Fenceposts(f: nat, oldEnd: nat)
      requires f % 8 == 0 && oldEnd % 8 == 0 && f + 16 <= oldEnd
      modifies this`head, this`data
      ensures Fenced(old(head), head, f, oldEnd) && SameBut(old(data), data, f + 8, oldEnd)
    {
      hide Span;
      var p := f;
      while true
        invariant f <= p && p % 8 == 0 && p + 16 <= oldEnd
        invariant p > f ==> f in head && head[f] == Head(SIZE_T_SIZE, true, true)
        invariant forall b: nat {:trigger b in head} {:trigger b in old(head)} :: b in old(head) && !(f <= b < p) ==>
                    b in head && head[b] == old(head)[b]
        invariant forall x: nat {:trigger Same(old(data), data, x)} :: !(f + 8 <= x < p + 8) ==>
                    Same(old(data), data, x)
        decreases oldEnd - p
      {
        var nextp := p + SIZE_T_SIZE;
        ghost var d := data;
        SetHead(p, Head(SIZE_T_SIZE, true, true));
        forall x: nat | !(f + 8 <= x < p + 16) ensures Same(old(data), data, x) {
          assert Same(old(data), d, x);
        }
        if nextp + 8 >= oldEnd {
          break;
        }
        p := nextp;
      }
    }

    /** The segment that holds address a. */
    method SegmentHolding(a: nat) returns (i: nat)
      requires exists j :: 0 <= j < |segs| && segs[j].base <= a < End(segs[j])
      ensures i < |segs| && segs[i].base <= a < End(segs[i])
    {
      i := 0;
      while !(segs[i].base <= a < End(segs[i]))
        invariant i < |segs| && forall j :: 0 <= j < i ==> !(segs[j].base <= a < End(segs[j]))
        decreases |segs| - i
      {
        i := i + 1;
      }
    }

    /** add_segment. */
    method AddSegment(base: nat, size: nat)
      requires Valid() && Unmapped(segs, base, size)
      modifies this, bins
      ensures Valid() && live == old(live) && LiveKept(old(Snap()), old(data), Snap(), data, {})
              && topsize == size - TOP_FOOT_SIZE && segs != old(segs)
    {
      hide Ok, Shape, SegsOk, Span, LiveKept, SmallOk, TreeOk, SizesOk, Unmapped, Pool, Same, Added;
      ghost var s := Snap();
      TopFacts(s);
      UnmappedSize(segs, base, size);
      TopHeld(s);
      OkParts(s);
      var oldTop := top;
      var oldSize := topsize;
      var i := SegmentHolding(oldTop);
      TopSegment(s, i);
      var oldEnd := End(segs[i]);
      var csp := RecordAddress(oldTop, oldEnd);
      Elsewhere(s, base, size);
      AddWords(csp, oldTop, oldSize, oldEnd, base, size, s.t);
      segs := [Segment(base, size)] + segs;
      if csp != oldTop {
        TopSize(s);
        bins.InsertChunk(oldTop, oldSize);
      }
      ExtendsOk(s, base, size, Snap());
      ExtendSpares(s, old(data), base, size, Snap(), data);
    }

    /** The header words of add_segment: new top, the chunk of the segment record and the record,
        fenceposts, and what is left of the old top. */
    method AddWords(csp: nat, oldTop: nat, oldSize: nat, oldEnd: nat, base: nat, size: nat, ghost t: Tags)
      requires Tags(head, foot, starts, ends, top) == t && Is(t, t.top) && csp == RecordAt(t) && oldTop == t.top
               && oldEnd == Next(t, t.top) + TOP_FOOT_SIZE
      requires t.head[t.top] == Head(oldSize, true, false) && 4096 <= size && oldTop % 8 == 0 && oldSize % 8 == 0
               && oldSize >= 8
      requires oldEnd <= base || base + size <= oldTop
      modifies this`top, this`topsize, this`head, this`foot, this`data, this`starts, this`ends
      ensures topsize == size - TOP_FOOT_SIZE && Added(t, base, size, Tags(head, foot, starts, ends, top))
      ensures forall x: nat {:trigger Same(old(data), data, x)} ::
                !(oldTop + 8 <= x < oldEnd) && !(base <= x < base + size) ==> Same(old(data), data, x)
    {
      hide Span, Added, RecordAt, Same, SameBut, Fenced;
      RecordIs(t);
      starts := starts + {csp, base};
      ends := ends - {oldTop + oldSize} + {csp + 32, base + size - TOP_FOOT_SIZE};
      MoveTop(base, size, csp);
      ghost var d, h1 := data, head;
      Fenceposts(csp + 32, oldEnd);
      ghost var d2, h2 := data, head;
      FencedAt(h1, h2, csp + 32, oldEnd, csp);
      if csp != oldTop {
        SetFreeWithPinuse(oldTop, oldSize, csp);
      }
      AddedIs(t, base, size, h1, h2, Tags(head, foot, starts, ends, top));
      AddData(old(data), d, d2, data, csp, oldTop, oldSize, base, size);
    }

    method MoveTop(base: nat, size: nat, csp: nat)
      requires 4096 <= size
      modifies this`top, this`topsize, this`head, this`data
      ensures top == base && topsize == size - TOP_FOOT_SIZE
      ensures head == old(head)[base := Head(size - TOP_FOOT_SIZE, true, false)]
              [base + (size - TOP_FOOT_SIZE) := Head(TOP_FOOT_SIZE, false, false)]
                               [csp := Head(32, true, true)]
      ensures data == old(data) - Span(base + 8, base + 16)
              - Span(base + size - TOP_FOOT_SIZE + 8, base + size - TOP_FOOT_SIZE + 16)
                      - Span(csp + 8, csp + 16) - Span(csp + 16, csp + 40)
    {
      InitTop(base, size - TOP_FOOT_SIZE);
      SetHead(csp, Head(32, true, true));
      data := data - Span(csp + 16, csp + 40);
    }

    /** Where the segment record goes: a chunk's worth before the end, aligned, unless that cuts
        off too little of the old top. */
    method RecordAddress(oldTop: nat, oldEnd: nat) returns (csp: nat)
      requires oldTop % 8 == 0 && oldEnd % 8 == 0 && oldTop + TOP_FOOT_SIZE <= oldEnd
      ensures csp == if oldEnd - TOP_FOOT_SIZE < oldTop + MIN_CHUNK_SIZE then oldTop else oldEnd - TOP_FOOT_SIZE
    {
      var ssize := 32;
      if oldEnd < ssize + 4 * SIZE_T_SIZE + 7 {
        assert oldEnd == 64;
      }
      var rawsp := oldEnd - (ssize + 4 * SIZE_T_SIZE + 7);
      var offset := (8 - (rawsp + 16) % 8) % 8;
      var asp := rawsp + offset;
      csp := if asp < oldTop + MIN_CHUNK_SIZE then oldTop else asp;
    }

    /** alloc_sys: appends to the segment of top, prepends to a segment, or adds one. It fails only
        when the system refuses or the size wraps around. */
    method AllocSys(nb: nat, sys: Answer) returns (mem: nat)
      requires Valid() && MIN_CHUNK_SIZE <= nb < SIZE_T_LIMIT && (nb % 8 == 0 || nb == SIZE_T_LIMIT - 1)
      requires sys.Memory? && nb < SystemSize(nb) ==> Unmapped(segs, sys.base, SystemSize(nb))
      modifies this, bins
      ensures Valid()
      ensures mem == 0 <==> sys.Refused? || SystemSize(nb) <= nb
      ensures mem == 0 ==> Snap() == old(Snap()) && data == old(data)
      ensures mem != 0 ==> mem >= 16 && Granted(old(Snap()), old(data), Snap(), data, mem - 16, nb)
    {
      hide Ok, SmallOk, TreeOk, SizesOk, Granted, LiveKept, Unmapped, SystemSize;
      var rsize := SystemSize(nb);
      if rsize <= nb || sys.Refused? {
        return 0;
      }
      SystemSizeFits(nb);
      UnmappedSize(segs, sys.base, rsize);
      ghost var s := Snap();
      var tbase := sys.base;
      var i := 0;
      while i < |segs| && tbase != End(segs[i])
        invariant 0 <= i <= |segs|
      {
        i := i + 1;
      }
      if i < |segs| && segs[i].base <= top < End(segs[i]) {
        Append(i, rsize);
      } else {
        i := 0;
        while i < |segs| && segs[i].base != tbase + rsize
          invariant 0 <= i <= |segs|
        {
          i := i + 1;
        }
        if i < |segs| {
          var p := PrependAlloc(i, tbase, rsize, nb);
          return p + 16;
        }
        AddSegment(tbase, rsize);
      }
      ghost var s1, d1 := Snap(), data;
      var p := TakeFromTop(nb);
      GrantedLater(s, old(data), s1, d1, Snap(), data, p, nb);
      mem := p + 16;
    }

    // ----- the interface ------------------------------------------------------------------

    /** lj_alloc_malloc. It returns null only when no free chunk, nor top, nor the system has room. */
    method Malloc(nsize: nat, sys: Answer) returns (mem: nat)
      requires Valid() && nsize < SIZE_T_LIMIT
      requires sys.Memory? && ChunkFor(nsize) < SystemSize(ChunkFor(nsize)) ==>
                 Unmapped(segs, sys.base, SystemSize(ChunkFor(nsize)))
      modifies this, bins
      ensures Valid()
      ensures mem == 0 ==> Snap() == old(Snap()) && data == old(data)
      ensures mem == 0 ==>
                NoRoom(old(Snap()), ChunkFor(nsize)) && (sys.Refused? || SystemSize(ChunkFor(nsize)) <= ChunkFor(nsize))
      ensures mem != 0 ==> mem >= 16 && Granted(old(Snap()), old(data), Snap(), data, mem - 16, ChunkFor(nsize))
      ensures mem != 0 ==> Chosen(old(Snap()), ChunkFor(nsize), mem - 16)
      ensures segs == old(segs) || NoRoom(old(Snap()), ChunkFor(nsize))
    {
      hide Ok, SmallOk, TreeOk, SizesOk, Granted, LiveKept, Unmapped, SystemSize, NoRoom, Pool, Held, Chosen, Bins.Valid;
      ghost var s := Snap();
      PaddedFits(nsize);
      DvSize(s);
      TopFacts(s);
      var nb;
      if nsize <= MAX_SMALL_REQUEST {
        nb := Request2Size(nsize);
        var p := MallocSmall(nb);
        if p.Chunk? {
          return p.addr + 16;
        }
      } else if nsize >= MAX_REQUEST {
        nb := SIZE_T_LIMIT - 1;
      } else {
        nb := PadRequest(nsize);
        if bins.treemap != {} {
          var p := TmallocLarge(nb);
          if p.Chunk? {
            return p.addr + 16;
          }
        } else {
          bins.NoLarge();
        }
      }
      if nb <= dvsize {
        DvChosen(s, nb);
        var p := TakeDv(nb);
        return p + 16;
      } else if nb < topsize {
        TopChosen(s, nb);
        var p := TakeFromTop(nb);
        return p + 16;
      }
      assert nsize >= MAX_REQUEST || forall a :: a in bins.free ==> bins.free[a] < nb;
      FullHeap(s, nb);
      mem := AllocSys(nb, sys);
      if mem != 0 {
        SystemChosen(s, nb, mem - 16);
      }
    }

    /** The part of malloc for small requests that comes before dv and top. */
    method MallocSmall(nb: nat) returns (r: Found)
      requires Valid() && nb % 8 == 0 && MIN_CHUNK_SIZE <= nb < MIN_LARGE_SIZE
      modifies this, bins
      ensures Valid()
      ensures r.Chunk? ==> Granted(old(Snap()), old(data), Snap(), data, r.addr, nb)
      ensures r.None? ==> Snap() == old(Snap()) && data == old(data)
      ensures r.None? && dvsize < nb ==> forall a :: a in bins.free ==> bins.free[a] < nb
      ensures r.None? ==> forall a :: a in bins.free && IsSmall(bins.free[a]) && nb <= bins.free[a] ==>
                nb + 8 < bins.free[a]
      ensures r.Chunk? ==> segs == old(segs) && Chosen(old(Snap()), nb, r.addr)
    {
      hide Ok, SmallOk, TreeOk, SizesOk, Granted, LiveKept;
      var idx := SmallIndex(nb);
      bins.MapFacts();
      if idx in bins.smallmap || idx + 1 in bins.smallmap {
        var i := if idx in bins.smallmap then idx else idx + 1;
        bins.LeastSmall(i, nb);
        var p := TakeSmall(i, nb);
        return Chunk(p, 8 * i);
      } else if nb > dvsize {
        var i := bins.NextMarked(bins.smallmap, idx);
        if i < 32 {
          bins.LeastSmall(i, nb);
          var p := TakeSmall(i, nb);
          return Chunk(p, 8 * i);
        } else if bins.treemap != {} {
          bins.SmallLess(nb);
          var p := TmallocSmall(nb);
          return Chunk(p, nb);
        }
        bins.OnlySmaller(nb);
      }
      bins.NotExact(nb);
      r := None;
    }

    /** lj_alloc_realloc for a block of the client. It stays where it is exactly if there is room for
        it there; it is big enough and keeps its bytes up to the smaller of both sizes. Null, only for
        requests that are too big or that malloc would refuse, leaves it as it is. */
    method Realloc(mem: nat, nsize: nat, sys: Answer) returns (r: nat)
      requires Valid() && mem >= 16 && mem - 16 in live && nsize < SIZE_T_LIMIT
      requires sys.Memory? && ChunkFor(nsize) < SystemSize(ChunkFor(nsize)) ==>
                 Unmapped(segs, sys.base, SystemSize(ChunkFor(nsize)))
      modifies this, bins
      ensures Valid()
      ensures r == 0 ==> Snap() == old(Snap()) && data == old(data)
      ensures r == 0 ==>
                || nsize >= MAX_REQUEST
                || (!InPlace(old(Snap()), mem - 16, Request2Size(nsize)) && NoRoom(old(Snap()), ChunkFor(nsize))
                    && (sys.Refused? || SystemSize(ChunkFor(nsize)) <= ChunkFor(nsize)))
      ensures r != 0 ==> r >= 16 && Moved(old(Snap()), old(data), Snap(), data, mem - 16, r - 16, nsize)
      ensures r == mem <==> nsize < MAX_REQUEST && InPlace(old(Snap()), mem - 16, Request2Size(nsize))
      ensures r != 0 && r != mem ==> Chosen(old(Snap()), ChunkFor(nsize), r - 16)
      ensures segs == old(segs) || NoRoom(old(Snap()), ChunkFor(nsize))
    {
      hide Ok, SmallOk, TreeOk, SizesOk, Moved, Unmapped, SystemSize, Held, Run, Pool, NoRoom, Chosen;
      if nsize >= MAX_REQUEST {
        return 0;
      }
      ghost var s := Snap();
      var oldp := mem - 16;
      PrevFacts(s, oldp);
      TopFacts(s);
      var oldsize := head[oldp].size;
      var next := oldp + oldsize;
      PaddedFits(nsize);
      var nb := Request2Size(nsize);
      if oldsize >= nb {
        Shrink(oldp, oldsize, nb, nsize);
        r := mem;
      } else if next == top && oldsize + topsize > nb {
        GrowUp(oldp, oldsize, nb, nsize);
        r := mem;
      } else {
        r := Malloc(nsize, sys);
        if r != 0 {
          MoveTo(oldp, oldsize, r - 16, nsize, s, old(data));
        }
      }
    }

    /** The block is big enough; a rest that makes a chunk is freed. */
    method Shrink(oldp: nat, oldsize: nat, nb: nat, ghost nsize: nat)
      requires Valid() && oldp in live && oldp in head && head[oldp].size == oldsize && nb <= oldsize
               && nb == Request2Size(nsize)
      modifies this, bins
      ensures Valid() && Moved(old(Snap()), old(data), Snap(), data, oldp, oldp, nsize) && segs == old(segs)
    {
      hide Ok, SmallOk, TreeOk, SizesOk, Moved, Held, Run, Pool, Span, LiveKept, BytesKept, Splits, FreeAround, Same,
           Lo, Hi;
      ghost var s := Snap();
      PrevFacts(s, oldp);
      PaddedFits(nsize);
      if oldsize - nb >= MIN_CHUNK_SIZE {
        SplitInUse(oldp, oldsize, nb);
        ghost var s1, d1 := Snap(), data;
        SplitOk(s, old(data), oldp, nb, s1, d1);
        SplitUse(s, oldp, nb, s1);
        FreeChunk(oldp + nb);
        Shrunk(s, old(data), s1, d1, Snap(), data, oldp, nb, nsize);
      } else {
        MovedNot(s, data, oldp, nsize);
      }
    }

    /** set_inuse on the front and on the rest. */
    method SplitInUse(p: nat, n: nat, nb: nat)
      requires p in head && head[p].size == n && head[p].cinuse && 0 < nb < n && p + n in head && !(p <= top < p + n)
      modifies this`head, this`data, this`live, this`starts
      ensures Splits(old(Snap()), p, nb, Snap())
      ensures forall x: nat {:trigger Same(old(data), data, x)} ::
                !(p + 8 <= x < p + 16) && !(p + nb + 8 <= x < p + n + 16) ==> Same(old(data), data, x)
    {
      hide Span, CutStarts;
      ghost var h := head;
      SetInuse(p, nb);
      SetInuse(p + nb, n - nb);
      assert head == h[p := Head(nb, h[p].pinuse, true)][p + nb := Head(n - nb, true, true)]
             [p + n := h[p + n].(pinuse := true)];
      starts := CutStarts(starts, Edit(p, p + nb, p + n, true, true));
      live := live + {p + nb};
    }

    /** set_inuse. A word that nothing was written to yet reads as zero. */
    method SetInuse(p: nat, s: nat)
      requires p in head && s > 0
      modifies this`head, this`data
      ensures head == old(head)[p := Head(s, old(head)[p].pinuse, true)]
                              [p + s := (if p + s in old(head) then old(head)[p + s]
                                         else Head(0, false, false)).(pinuse := true)]
      ensures data == old(data) - Span(p + 8, p + 16) - Span(p + s + 8, p + s + 16)
    {
      SetHead(p, Head(s, head[p].pinuse, true));
      var w := if p + s in head then head[p + s] else Head(0, false, false);
      SetHead(p + s, w.(pinuse := true));
    }

    method GrowUp(oldp: nat, oldsize: nat, nb: nat, ghost nsize: nat)
      requires Valid() && oldp in live && oldp in head && head[oldp].size == oldsize && nb == Request2Size(nsize)
      requires oldsize < nb < oldsize + topsize && oldp + oldsize == top
      modifies this
      ensures Valid() && Moved(old(Snap()), old(data), Snap(), data, oldp, oldp, nsize) && segs == old(segs)
    {
      hide Ok, SmallOk, TreeOk, SizesOk, Moved, Held, Run, Pool, Span, CutStarts, Lo, Hi;
      ghost var s := Snap();
      PrevFacts(s, oldp);
      PaddedFits(nsize);
      var newsize := oldsize + topsize;
      var newtopsize := newsize - nb;
      var newtop := oldp + nb;
      starts := CutStarts(starts, Edit(oldp, newtop, top + topsize, true, false));
      SetInuse(oldp, nb);
      SetHead(newtop, Head(newtopsize, true, false));
      top := newtop;
      topsize := newtopsize;
      assert head == s.t.head[oldp := Head(nb, s.t.head[oldp].pinuse, true)][newtop := Head(newtopsize, true, false)];
      assert GrowsUp(s, oldp, nb, Snap());
      hide GrowsUp;
      GrowOk(s, old(data), oldp, nb, nsize, Snap(), data);
    }

    /** The rest of realloc when the block moves: copy and free. */
    method MoveTo(oldp: nat, oldsize: nat, newp: nat, nsize: nat, ghost s: State, ghost d: map<nat, bv8>)
      requires Valid() && Ok(s) && oldp in s.live && Granted(s, d, Snap(), data, newp, Request2Size(nsize))
      requires oldp in s.t.head && s.t.head[oldp].size == oldsize
      modifies this, bins
      ensures Valid() && Moved(s, d, Snap(), data, oldp, newp, nsize) && segs == old(segs) && newp != oldp
    {
      hide Ok, SmallOk, TreeOk, SizesOk, Moved, Held, Run, Pool, LiveKept, FreeAround, Copied;
      PrevFacts(s, oldp);
      var oc := oldsize - CHUNK_OVERHEAD;
      ghost var s1, d1 := Snap(), data;
      data := Copied(data, oldp, newp, Min(oc, nsize));
      FreeChunk(oldp);
      MovedTo(s, d, s1, d1, Snap(), data, oldp, newp, nsize);
    }

    /** A client writes byte k of its block. Where this byte would be part of header words, these
        change too: to h and f. */
    method WriteByte(mem: nat, k: nat, v: bv8, h: Head, f: nat)
      requires Valid() && mem >= 16 && mem - 16 in live && mem - 16 in head && k + CHUNK_OVERHEAD < head[mem - 16].size
      modifies this`head, this`foot, this`data
      ensures Valid() && data == old(data)[mem + k := v] && live == old(live)
      ensures forall a <- live :: a in old(head) && a in head && head[a].size == old(head)[a].size
    {
      hide Ok, SmallOk, TreeOk, SizesOk;
      ghost var s := Snap();
      var x := mem + k;
      LiveIs(s, mem - 16);
      ScribbleOk(s, mem - 16, x, h, f);
      head := head[x / 8 * 8 - 8 := h];
      foot := foot[x / 8 * 8 := f];
      data := data[x := v];
    }

    /** The header words for a chunk in use of nb bytes and a free one behind it. */
    method SplitFront(p: nat, nb: nat, n: nat)
      requires 0 < nb < n && !(p <= top < p + n)
      modifies this`head, this`foot, this`data, this`starts
      ensures Tags(head, foot, starts, ends, top)
           == Cut(old(Tags(head, foot, starts, ends, top)), Edit(p, p + nb, p + n, true, false),
                  old(head)[p := Head(nb, true, true)][p + nb := Head(n - nb, true, false)], old(foot)[p + n := n - nb])
      ensures data == old(data) - Span(p + 8, p + 16) - Span(p + nb + 8, p + nb + 16) - Span(p + n, p + n + 8)
    {
      hide Span, CutStarts;
      SetHead(p, Head(nb, true, true));
      SetSizeAndPinuseOfFree(p + nb, n - nb);
      starts := CutStarts(starts, Edit(p, p + nb, p + n, true, false));
    }
  }

  /** The segment that holds top ends behind top's padding. */
  lemma TopSegment(s: State, i: nat)
    requires Ok(s) && i < |s.segs| && s.segs[i].base <= s.t.top < End(s.segs[i])
    ensures Is(s.t, s.t.top) && End(s.segs[i]) == Next(s.t, s.t.top) + TOP_FOOT_SIZE
            && s.topsize == s.t.head[s.t.top].size
  {
    hide Shape, AllHeld, BasesOk, FreeAgree;
    var g :| g in s.segs && g.base <= s.t.top && Next(s.t, s.t.top) + TOP_FOOT_SIZE == End(g);
    var j :| 0 <= j < |s.segs| && s.segs[j] == g;
    assert i == j;
  }

  /** The heap with the new memory before segment i as one chunk in use. */
  ghost function Joining(s: State, b: nat, n: nat, i: nat): State {
    s.(t := s.t.(head := s.t.head[b := Head(n, true, true)], starts := s.t.starts + {b}),
       segs := if i < |s.segs| then Longer(s.segs, i, b, n) else s.segs)
  }

  lemma DvMoved(s: State, s2: State, q: nat, n: nat)
    requires DvOk(s) && s.dvsize != 0 && s2.free == s.free && s2.dv == q && s2.dvsize == n && n > 0
    ensures Pool(s2) == (Pool(s) - {s.dv})[q := n]
  {
  }

  /** No binned chunk starts in the new memory. */
  lemma NotBinned(s: State, b: nat, n: nat, i: nat, s1: State, q: nat)
    requires Ok(s) && Prepends(s, b, n, i, s1) && b <= q < b + n
    ensures q !in s.free && q !in Pool(s)
  {
    hide Shape, SegsOk, Pool, Prepends;
    InPool(s, q);
    if q in Pool(s) {
      PoolChunk(s, q);
      ChunkBorder(s, q);
      PrependsSame(s, b, n, i, s1, q);
    }
  }

  lemma PrependSize(s: State, b: nat, n: nat, i: nat, nb: nat, s1: State)
    requires Ok(s) && Prepends(s, b, n, i, s1) && nb % 8 == 0 && nb + TOP_FOOT_SIZE < n
    ensures FirstEnd(s.t, b + n) >= b + n && SizeOk(FirstEnd(s.t, b + n) - (b + nb))
  {
    hide Ok, Shape, FirstEnd, Pool, Longer, Prepended, Unmapped, Held, Run;
    FirstFacts(s, b, n, i, s1);
    PrependsOk(s, b, n, i, s1);
    UnmappedSize(s.segs, b, n);
    HeldWithin(s1, b, FirstEnd(s.t, b + n));
    RunAligned(s1.t, b, FirstEnd(s.t, b + n));
  }

  lemma RunAligned(t: Tags, lo: nat, hi: nat)
    requires Run(t, lo, hi)
    ensures lo % 8 == 0 && hi % 8 == 0
  {
  }

  lemma TopHeld(s: State)
    requires Ok(s)
    ensures exists j :: 0 <= j < |s.segs| && s.segs[j].base <= s.t.top < End(s.segs[j])
    ensures RecordAt(s.t) == if s.topsize < MIN_CHUNK_SIZE then s.t.top else s.t.top + s.topsize
  {
    hide Shape, SegmentsApart, AllHeld, BasesOk;
    var g :| g in s.segs && g.base <= s.t.top && Next(s.t, s.t.top) + TOP_FOOT_SIZE == End(g);
    var j :| 0 <= j < |s.segs| && s.segs[j] == g;
  }

  lemma TopSize(s: State)
    requires Ok(s) && s.topsize >= MIN_CHUNK_SIZE
    ensures SizeOk(s.topsize) && s.t.top !in s.free
  {
    hide Shape, SegsOk;
    TopFacts(s);
    DvApart(s);
    InPool(s, s.t.top);
  }

  lemma Elsewhere(s: State, base: nat, size: nat)
    requires Ok(s) && Unmapped(s.segs, base, size)
    ensures s.t.top + s.topsize + TOP_FOOT_SIZE <= base || base + size <= s.t.top
    ensures s.t.top in s.t.head && s.t.head[s.t.top] == Head(s.topsize, true, false)
  {
    hide SegmentsApart, AllHeld, BasesOk;
    NewElsewhere(s.t, s.segs, base, size);
  }

  lemma RecordIs(t: Tags)
    requires Is(t, t.top)
    ensures RecordAt(t) == if t.head[t.top].size < MIN_CHUNK_SIZE then t.top else t.top + t.head[t.top].size
  {
  }

  /** The header words that add_segment writes: h1 before the fenceposts, h2 after them. */
  lemma AddedIs(t: Tags, base: nat, size: nat, h1: map<nat, Head>, h2: map<nat, Head>, t2: Tags)
    requires Is(t, t.top) && t.head[t.top] == Head(t.head[t.top].size, true, false) && 4096 <= size
    requires t.head[t.top].size >= 8 && t.head[t.top].size % 8 == 0
    requires Next(t, t.top) + TOP_FOOT_SIZE <= base || base + size <= t.top
    requires var c := RecordAt(t);
             var end := Next(t, t.top);
             && h1 == t.head[base := Head(size - TOP_FOOT_SIZE, true, false)]
                  [base + (size - TOP_FOOT_SIZE) := Head(TOP_FOOT_SIZE, false, false)]
                            [c := Head(32, true, true)]
             && Fenced(h1, h2, c + 32, end + TOP_FOOT_SIZE)
             && t2.starts == t.starts + {c, base} && t2.ends == t.ends - {end} + {c + 32, base + size - TOP_FOOT_SIZE}
             && t2.top == base
             && t2.head
                  == (if c == t.top then h2
                      else h2[c := Head(32, false, true)][t.top := Head(t.head[t.top].size, true, false)])
             && t2.foot == (if c == t.top then t.foot else t.foot[end := t.head[t.top].size])
    ensures Added(t, base, size, t2)
  {
    forall b: nat | b in t.head && !(t.top <= b < Next(t, t.top) + TOP_FOOT_SIZE) && !(base <= b < base + size)
      ensures b in t2.head && t2.head[b] == t.head[b]
    {
      assert b in h1 && b in h2;
    }
    assert t.top in h1 && t.top in h2;
  }

  /** The bytes that add_segment writes over: d1 before the fenceposts, d2 after them. */
  lemma AddData(d: map<nat, bv8>, d1: map<nat, bv8>, d2: map<nat, bv8>, d3: map<nat, bv8>, csp: nat, oldTop: nat,
                oldSize: nat, base: nat, size: nat)
    requires oldSize >= 8 && size >= 4096 && csp == (if oldSize < MIN_CHUNK_SIZE then oldTop else oldTop + oldSize)
    requires d1 == d - Span(base + 8, base + 16)
                     - Span(base + size - TOP_FOOT_SIZE + 8, base + size - TOP_FOOT_SIZE + 16)
                     - Span(csp + 8, csp + 16) - Span(csp + 16, csp + 40)
    requires SameBut(d1, d2, csp + 40, oldTop + oldSize + TOP_FOOT_SIZE)
    requires d3 == if csp == oldTop then d2
                   else d2 - Span(csp + 8, csp + 16) - Span(oldTop + 8, oldTop + 16)
                        - Span(oldTop + oldSize, oldTop + oldSize + 8)
    ensures forall x: nat {:trigger Same(d, d3, x)} ::
              !(oldTop + 8 <= x < oldTop + oldSize + TOP_FOOT_SIZE) && !(base <= x < base + size) ==> Same(d, d3, x)
  {
    hide Span;
    forall x: nat | !(oldTop + 8 <= x < oldTop + oldSize + TOP_FOOT_SIZE) && !(base <= x < base + size)
      ensures Same(d, d3, x) {
      assert Same(d1, d2, x);
    }
  }

  /** The header words are the same but for a row of fenceposts from f up to end. */
  ghost predicate Fenced(h: map<nat, Head>, h2: map<nat, Head>, f: nat, end: nat) {
    && f in h2 && h2[f] == Head(SIZE_T_SIZE, true, true)
    && forall b: nat {:trigger b in h2} {:trigger b in h} :: b in h && !(f <= b < end) ==> b in h2 && h2[b] == h[b]
  }

  lemma FencedAt(h: map<nat, Head>, h2: map<nat, Head>, f: nat, end: nat, b: nat)
    requires Fenced(h, h2, f, end) && b in h && !(f <= b < end)
    ensures b in h2 && h2[b] == h[b]
  {
  }

  ghost predicate SameBut(d: map<nat, bv8>, d2: map<nat, bv8>, lo: nat, hi: nat) {
    forall x: nat {:trigger Same(d, d2, x)} :: !(lo <= x < hi) ==> Same(d, d2, x)
  }

  /** Nothing in the bins, dv and top is big enough. */
  lemma FullHeap(s: State, nb: nat)
    requires Ok(s) && s.topsize <= nb && s.dvsize < nb
    requires nb >= SIZE_LIMIT || forall a :: a in s.free ==> s.free[a] < nb
    ensures NoRoom(s, nb)
  {
    hide Shape, SegsOk, FreeAgree;
    forall a | a in Pool(s) ensures Pool(s)[a] < nb {
      PoolSizes(s, a);
    }
  }

  lemma LiveIs(s: State, p: nat)
    requires Live(s, p)
    ensures Is(s.t, p)
  {
  }

  lemma DvBelow(s: State)
    requires Ok(s)
    ensures s.dvsize < SIZE_LIMIT
  {
    DvSize(s);
  }

  lemma DvNotTop(s: State)
    requires Ok(s) && s.dvsize != 0
    ensures !(s.dv <= s.t.top < s.dv + s.dvsize)
  {
    InPool(s, s.dv);
    CarveFacts(s, s.dv);
  }

  lemma CarveTop(s: State, p: nat)
    requires Ok(s) && p in s.free
    ensures !(p <= s.t.top < p + s.free[p])
  {
    DvApart(s);
    InPool(s, p);
    CarveFacts(s, p);
  }

  lemma GrantedLess(s: State, d: map<nat, bv8>, s2: State, d2: map<nat, bv8>, p: nat, n: nat, nb: nat)
    requires Granted(s, d, s2, d2, p, n) && nb <= n < nb + MIN_CHUNK_SIZE && p in s2.t.head && s2.t.head[p].size == n
    ensures Granted(s, d, s2, d2, p, nb)
  {
  }

  lemma DvChosen(s: State, nb: nat)
    requires nb <= s.dvsize && forall a :: a in s.free && nb <= s.free[a] ==>
               if nb < MIN_LARGE_SIZE then IsSmall(s.free[a]) ==> nb + 8 < s.free[a] else s.dvsize <= s.free[a]
    ensures Chosen(s, nb, s.dv)
  {
  }

  lemma TopChosen(s: State, nb: nat)
    requires s.dvsize < nb && forall a :: a in s.free ==> s.free[a] < nb
    ensures Chosen(s, nb, s.t.top)
  {
  }

  lemma SystemChosen(s: State, nb: nat, p: nat)
    requires Ok(s) && NoRoom(s, nb) && nb > 0
    ensures Chosen(s, nb, p)
  {
    hide Shape, SegsOk, FreeAgree;
    DvApart(s);
    InPool(s, s.dv);
    forall a | a in s.free ensures s.free[a] < nb {
      InPool(s, a);
    }
  }

  lemma DvSize(s: State)
    requires Ok(s)
    ensures s.dvsize != 0 ==> SizeOk(s.dvsize) && s.dv !in s.free && s.dv in Pool(s)
  {
    if s.dvsize != 0 {
      PoolSizes(s, s.dv);
    }
  }

  lemma RestSize(s: State, p: nat, nb: nat)
    requires Ok(s) && p in s.free && nb % 8 == 0 && MIN_CHUNK_SIZE <= nb && nb + MIN_CHUNK_SIZE <= s.free[p]
    ensures SizeOk(s.free[p] - nb) && p + nb !in s.free
    ensures s.free[p] - nb + (p + nb) == p + s.free[p]
  {
    hide Shape, SegsOk, FreeAgree;
    DvApart(s);
    InPool(s, p);
    InPool(s, p + nb);
    PoolSizes(s, p);
    PoolAlone(s, p);
  }
}
