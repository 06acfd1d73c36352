/** Memory from the system: segments, and what appending, prepending and adding one does to
    the chunks. */
module AllocSegments {
  import opened AllocSizes
  import opened AllocShape

  datatype Segment = Segment(base: nat, size: nat)

  function End(s: Segment): nat { s.base + s.size }

  /** The words from lo up to the header word at hi lie in one segment. */
  ghost predicate Held(segs: seq<Segment>, lo: nat, hi: nat) {
    exists i :: HeldBy(segs, i, lo, hi)
  }

  ghost predicate HeldBy(segs: seq<Segment>, i: int, lo: nat, hi: nat) {
    0 <= i < |segs| && segs[i].base <= lo && hi + 16 <= End(segs[i])
  }

  ghost predicate SegmentsApart(segs: seq<Segment>) {
    && (forall s <- segs :: 0 < s.size)
    && forall i, j {:trigger segs[i], segs[j]} :: 0 <= i < j < |segs| ==>
      End(segs[i]) <= segs[j].base || End(segs[j]) <= segs[i].base
  }

  /** A segment starts with a chunk, behind nothing free. */
  ghost predicate BasesOk(t: Tags, segs: seq<Segment>) {
    forall s <- segs :: 0 < s.base && s.base in t.starts && s.base in t.head && t.head[s.base].pinuse
        && End(s) <= SIZE_LIMIT
  }

  ghost predicate AllHeld(t: Tags, segs: seq<Segment>) {
    && (forall a: nat {:trigger Is(t, a)} :: Is(t, a) ==> Held(segs, a, Next(t, a)))
    && (forall x <- t.ends :: Held(segs, x, x))
  }

  /** Top is the last chunk of its segment, with room for the segment record behind it. */
  ghost predicate TopLast(t: Tags, segs: seq<Segment>)
    requires Is(t, t.top)
  {
    && (forall x: nat {:trigger Border(t, x)} :: Border(t, x) && Next(t, t.top) < x ==>
        Next(t, t.top) + TOP_FOOT_SIZE <= x)
    && (exists s :: s in segs && s.base <= t.top && Next(t, t.top) + TOP_FOOT_SIZE == End(s))
  }

  ghost predicate SegsOk(t: Tags, segs: seq<Segment>) {
    Is(t, t.top) && SegmentsApart(segs) && BasesOk(t, segs) && AllHeld(t, segs) && TopLast(t, segs)
  }

  lemma HeldJoins(segs: seq<Segment>, a: nat, b: nat, c: nat)
    requires SegmentsApart(segs) && Held(segs, a, b) && Held(segs, b, c) && a <= b <= c
    ensures Held(segs, a, c)
  {
    var i :| HeldBy(segs, i, a, b);
    var j :| HeldBy(segs, j, b, c);
    assert i == j;
    assert HeldBy(segs, i, a, c);
  }

  lemma HeldPart(segs: seq<Segment>, a: nat, b: nat, lo: nat, hi: nat)
    requires Held(segs, lo, hi) && lo <= a && b <= hi
    ensures Held(segs, a, b)
  {
    var i :| HeldBy(segs, i, lo, hi);
    assert HeldBy(segs, i, a, b);
  }

  // ----- edits stay within their segment ------------------------------------------------

  lemma EditSegs(t: Tags, e: Edit, t2: Tags, segs: seq<Segment>)
    requires Shape(t) && SegsOk(t, segs) && Edits(t, e) && Edited(t, e, t2) && Held(segs, e.lo, e.hi)
    ensures SegsOk(t2, segs)
  {
    hide Edited, Edits, Apart, EndsOk, BasesOk, AllHeld, TopLast, Border, BitsAgree, FeetAgree;
    EditFacts(t, e, t2);
    TopStays(t, e, t2);
    EditBases(t, e, t2, segs);
    EditHeld(t, e, t2, segs);
    EditTopLast(t, e, t2, segs);
  }

  lemma EditBases(t: Tags, e: Edit, t2: Tags, segs: seq<Segment>)
    requires Shape(t) && SegsOk(t, segs) && Edits(t, e) && Edited(t, e, t2) && Held(segs, e.lo, e.hi)
    ensures BasesOk(t2, segs)
  {
    hide Edited, Edits, EndsOk, AllHeld, TopLast, BitsAgree, FeetAgree;
    EditFacts(t, e, t2);
    var i :| HeldBy(segs, i, e.lo, e.hi);
    forall j | 0 <= j < |segs|
      ensures 0 < segs[j].base && segs[j].base in t2.starts && segs[j].base in t2.head && t2.head[segs[j].base].pinuse
              && End(segs[j]) <= SIZE_LIMIT
    {
      var b := segs[j].base;
      assert Is(t, b);
      if e.lo <= b < e.hi {
        assert i == j || b == e.lo;
        NewChunks(t, e, t2, b);
      } else {
        Kept(t, e, t2, b);
        assert b != e.hi;
      }
    }
  }

  lemma EditHeld(t: Tags, e: Edit, t2: Tags, segs: seq<Segment>)
    requires Shape(t) && SegsOk(t, segs) && Edits(t, e) && Edited(t, e, t2) && Held(segs, e.lo, e.hi)
    ensures AllHeld(t2, segs)
  {
    hide Edited, Edits, EndsOk, TopLast, BitsAgree, FeetAgree, Held, SegmentsApart, BasesOk, Border;
    EditFacts(t, e, t2);
    forall a: nat | Is(t2, a) ensures Held(segs, a, Next(t2, a)) {
      if e.lo <= a < e.hi {
        NewChunks(t, e, t2, a);
        HeldPart(segs, a, Next(t2, a), e.lo, e.hi);
      } else {
        Kept(t, e, t2, a);
      }
    }
  }

  lemma EditTopLast(t: Tags, e: Edit, t2: Tags, segs: seq<Segment>)
    requires Shape(t) && SegsOk(t, segs) && Edits(t, e) && Edited(t, e, t2) && Is(t2, t2.top) && Held(segs, e.lo, e.hi)
    ensures TopLast(t2, segs)
  {
    hide Edited, Edits, BitsAgree, FeetAgree, BasesOk, AllHeld;
    EditFacts(t, e, t2);
    TopStays(t, e, t2);
    var end := Next(t, t.top);
    NotInside(t, e, end);
    forall x: nat | Border(t2, x) && end < x ensures end + TOP_FOOT_SIZE <= x {
      if e.lo < x < e.hi {
        NewChunks(t, e, t2, x);
        assert Border(t, e.lo);
      } else {
        BorderKept(t, e, t2, x);
      }
    }
    var s :| s in segs && s.base <= t.top && Next(t, t.top) + TOP_FOOT_SIZE == End(s);
    if MovesTop(t, e) {
      var i :| HeldBy(segs, i, e.lo, e.hi);
      assert segs[i] == s;
    }
    assert s in segs && s.base <= t2.top && Next(t2, t2.top) + TOP_FOOT_SIZE == End(s);
  }

  // ----- the system's answer ------------------------------------------------------------

  /** The system hands out memory that is in no segment. */
  predicate Unmapped(segs: seq<Segment>, base: nat, size: nat) {
    && 0 < base && base % 4096 == 0 && size % 4096 == 0 && 0 < size && base + size <= SIZE_LIMIT
    && forall s <- segs :: End(s) <= base || base + size <= s.base
  }

  /** No chunk reaches into it and no chunk or segment ends in it. */
  lemma UnmappedIsClear(t: Tags, segs: seq<Segment>, base: nat, size: nat, x: nat)
    requires Tiled(t) && SegsOk(t, segs) && Unmapped(segs, base, size)
    ensures Border(t, x) ==> x + 16 <= base || base + size <= x
    ensures Is(t, x) ==> Next(t, x) + 16 <= base || base + size <= x
  {
    if Is(t, x) {
      var i :| HeldBy(segs, i, x, Next(t, x));
      assert segs[i] in segs;
    }
    if Border(t, x) && x in t.ends {
      var i :| HeldBy(segs, i, x, x);
      assert segs[i] in segs;
    }
  }

  /** A chunk not in use below top's end is below top, one above it is above top's padding. */
  lemma AroundTop(t: Tags, segs: seq<Segment>, x: nat)
    requires Shape(t) && SegsOk(t, segs)
    ensures Border(t, x) ==> x <= t.top || x == Next(t, t.top) || Next(t, t.top) + TOP_FOOT_SIZE <= x
    ensures Is(t, x) ==> Next(t, x) <= t.top || x == t.top || Next(t, t.top) + TOP_FOOT_SIZE <= x
  {
    hide AllHeld, BasesOk, BitsAgree, FeetAgree;
    assert Border(t, t.top);
  }

  // ----- appending: top grows ---------------------------------------------------------

  /** t2 is t after init_top has given top n more bytes. */
  ghost predicate Appended(t: Tags, n: nat, t2: Tags)
    requires Is(t, t.top)
  {
    var end := Next(t, t.top);
    && t2.starts == t.starts && t2.foot == t.foot && t2.top == t.top
    && t2.ends == t.ends - {end} + {end + n}
    && t2.head == t.head[t.top := Head(t.head[t.top].size + n, true, false)]
         [end + n := Head(TOP_FOOT_SIZE, false, false)]
  }

  lemma AppendChunk(t: Tags, segs: seq<Segment>, n: nat, t2: Tags, a: nat)
    requires Shape(t) && SegsOk(t, segs) && Appended(t, n, t2) && Unmapped(segs, Next(t, t.top) + TOP_FOOT_SIZE, n)
    ensures Is(t2, a) <==> Is(t, a)
    ensures Is(t, a) && a != t.top ==> t2.head[a] == t.head[a]
    ensures Is(t, a) ==> Next(t2, a) == if a == t.top then Next(t, a) + n else Next(t, a)
    ensures Border(t2, a) <==> (Border(t, a) && a != Next(t, t.top)) || a == Next(t, t.top) + n
    ensures Border(t2, a) && a != t.top && a != Next(t, t.top) + n ==> t2.head[a] == t.head[a]
    ensures Is(t, a) && a != t.top ==> Next(t, a) != Next(t, t.top)
    ensures !Border(t, Next(t, t.top) + n)
  {
    hide AllHeld, BasesOk, SegmentsApart, BitsAgree, FeetAgree, Apart;
    var end := Next(t, t.top);
    UnmappedIsClear(t, segs, end + TOP_FOOT_SIZE, n, end + n);
    AroundTop(t, segs, end + n);
    AroundTop(t, segs, a);
  }

  lemma AppendOk(t: Tags, segs: seq<Segment>, n: nat, t2: Tags)
    requires Shape(t) && SegsOk(t, segs) && Appended(t, n, t2) && Unmapped(segs, Next(t, t.top) + TOP_FOOT_SIZE, n)
    ensures Shape(t2)
  {
    hide SegsOk, Unmapped, Fits, BitsAt, FootAt, BackAt, Border, EndsOk;
    AppendApart(t, segs, n, t2);
    AppendEnds(t, segs, n, t2);
    AppendChunk(t, segs, n, t2, t.top);
    forall a: nat | Is(t2, a) ensures Fits(t2, a) && BitsAt(t2, a) && FootAt(t2, a) && BackAt(t2, a) {
      AppendAt(t, segs, n, t2, a);
      AppendBack(t, segs, n, t2, a);
    }
  }

  lemma AppendAt(t: Tags, segs: seq<Segment>, n: nat, t2: Tags, a: nat)
    requires Shape(t) && SegsOk(t, segs) && Appended(t, n, t2) && Unmapped(segs, Next(t, t.top) + TOP_FOOT_SIZE, n)
             && Is(t2, a)
    ensures Fits(t2, a) && BitsAt(t2, a) && FootAt(t2, a)
  {
    hide SegsOk, Apart, EndsOk, BackAt;
    AppendChunk(t, segs, n, t2, a);
    assert Fits(t, a) && BitsAt(t, a) && FootAt(t, a);
    AppendChunk(t, segs, n, t2, Next(t2, a));
  }

  lemma AppendBack(t: Tags, segs: seq<Segment>, n: nat, t2: Tags, a: nat)
    requires Shape(t) && SegsOk(t, segs) && Appended(t, n, t2) && Unmapped(segs, Next(t, t.top) + TOP_FOOT_SIZE, n)
             && Is(t2, a)
    ensures BackAt(t2, a)
  {
    hide SegsOk, Apart, EndsOk, Unmapped, Fits, BitsAt, FootAt;
    AppendChunk(t, segs, n, t2, a);
    assert BackAt(t, a);
    if !t.head[a].pinuse {
      AppendChunk(t, segs, n, t2, a - t.foot[a]);
    }
  }

  lemma AppendApart(t: Tags, segs: seq<Segment>, n: nat, t2: Tags)
    requires Shape(t) && SegsOk(t, segs) && Appended(t, n, t2) && Unmapped(segs, Next(t, t.top) + TOP_FOOT_SIZE, n)
    ensures Apart(t2)
  {
    hide SegsOk, Unmapped, Border, Appended;
    forall a: nat, x: nat | Is(t2, a) && Border(t2, x) && a < x ensures Next(t2, a) <= x {
      AppendChunk(t, segs, n, t2, a);
      AppendChunk(t, segs, n, t2, x);
      AroundTop(t, segs, x);
      AroundTop(t, segs, a);
      UnmappedIsClear(t, segs, Next(t, t.top) + TOP_FOOT_SIZE, n, x);
      UnmappedIsClear(t, segs, Next(t, t.top) + TOP_FOOT_SIZE, n, a);
    }
  }

  lemma AppendEnds(t: Tags, segs: seq<Segment>, n: nat, t2: Tags)
    requires Shape(t) && SegsOk(t, segs) && Appended(t, n, t2) && Unmapped(segs, Next(t, t.top) + TOP_FOOT_SIZE, n)
    ensures EndsOk(t2) && TopOk(t2)
  {
    hide SegsOk, Unmapped, Apart, BitsAgree, FeetAgree;
    AppendChunk(t, segs, n, t2, t.top);
    forall x | x in t2.ends
      ensures x in t2.head && x !in t2.starts && (t2.head[x].cinuse || (Is(t2, t2.top) && x == Next(t2, t2.top)))
    {
      AppendChunk(t, segs, n, t2, x);
    }
  }

  /** The segment at index i, which holds top, takes the memory behind it. */
  lemma AppendSegs(t: Tags, segs: seq<Segment>, n: nat, t2: Tags, i: nat)
    requires Shape(t) && SegsOk(t, segs) && Appended(t, n, t2) && Unmapped(segs, Next(t, t.top) + TOP_FOOT_SIZE, n)
    requires i < |segs| && segs[i].base <= t.top && End(segs[i]) == Next(t, t.top) + TOP_FOOT_SIZE
    ensures SegsOk(t2, segs[i := Segment(segs[i].base, segs[i].size + n)])
  {
    hide AllHeld, Held, BasesOk, Fits, BitsAt, FootAt, BackAt, Border, EndsOk, TopLast, SegmentsApart;
    AppendChunk(t, segs, n, t2, t.top);
    var segs2 := segs[i := Segment(segs[i].base, segs[i].size + n)];
    GrownApart(segs, i, n);
    AppendBases(t, segs, n, t2, i);
    AppendHeld(t, segs, n, t2, i);
    AppendTopLast(t, segs, n, t2, i);
  }

  lemma GrownApart(segs: seq<Segment>, i: nat, n: nat)
    requires SegmentsApart(segs) && i < |segs| && Unmapped(segs, End(segs[i]), n)
    ensures SegmentsApart(segs[i := Segment(segs[i].base, segs[i].size + n)])
  {
    var segs2 := segs[i := Segment(segs[i].base, segs[i].size + n)];
    forall s | s in segs2 ensures 0 < s.size {
      var j :| 0 <= j < |segs2| && segs2[j] == s;
      assert segs[j] in segs;
    }
    forall j, k | 0 <= j < k < |segs2| ensures End(segs2[j]) <= segs2[k].base || End(segs2[k]) <= segs2[j].base {
      assert segs[j] in segs && segs[k] in segs;
    }
  }

  lemma AppendBases(t: Tags, segs: seq<Segment>, n: nat, t2: Tags, i: nat)
    requires Shape(t) && SegsOk(t, segs) && Appended(t, n, t2) && Unmapped(segs, Next(t, t.top) + TOP_FOOT_SIZE, n)
    requires i < |segs| && segs[i].base <= t.top && End(segs[i]) == Next(t, t.top) + TOP_FOOT_SIZE
    ensures BasesOk(t2, segs[i := Segment(segs[i].base, segs[i].size + n)])
  {
    hide AllHeld, Held, Fits, BitsAt, FootAt, BackAt, EndsOk, TopLast, SegmentsApart;
    var segs2 := segs[i := Segment(segs[i].base, segs[i].size + n)];
    forall s | s in segs2 ensures 0 < s.base && s.base in t2.starts && s.base in t2.head && t2.head[s.base].pinuse
        && End(s) <= SIZE_LIMIT {
      var j :| 0 <= j < |segs2| && segs2[j] == s;
      assert segs[j] in segs;
      AppendChunk(t, segs, n, t2, s.base);
    }
  }

  lemma AppendHeld(t: Tags, segs: seq<Segment>, n: nat, t2: Tags, i: nat)
    requires Shape(t) && SegsOk(t, segs) && Appended(t, n, t2) && Unmapped(segs, Next(t, t.top) + TOP_FOOT_SIZE, n)
    requires i < |segs| && segs[i].base <= t.top && End(segs[i]) == Next(t, t.top) + TOP_FOOT_SIZE
    ensures AllHeld(t2, segs[i := Segment(segs[i].base, segs[i].size + n)])
  {
    hide Fits, BitsAt, FootAt, BackAt, EndsOk, TopLast, SegmentsApart, BasesOk, Border, Unmapped;
    var segs2 := segs[i := Segment(segs[i].base, segs[i].size + n)];
    forall a: nat | Is(t2, a) ensures Held(segs2, a, Next(t2, a)) {
      AppendChunk(t, segs, n, t2, a);
      if a == t.top {
        assert HeldBy(segs2, i, a, Next(t2, a));
      } else {
        var j :| HeldBy(segs, j, a, Next(t, a));
        assert HeldBy(segs2, j, a, Next(t, a));
      }
    }
    forall x | x in t2.ends ensures Held(segs2, x, x) {
      if x in t.ends {
        var j :| HeldBy(segs, j, x, x);
        assert HeldBy(segs2, j, x, x);
      } else {
        assert HeldBy(segs2, i, x, x);
      }
    }
  }

  lemma AppendTopLast(t: Tags, segs: seq<Segment>, n: nat, t2: Tags, i: nat)
    requires Shape(t) && SegsOk(t, segs) && Appended(t, n, t2) && Unmapped(segs, Next(t, t.top) + TOP_FOOT_SIZE, n)
    requires i < |segs| && segs[i].base <= t.top && End(segs[i]) == Next(t, t.top) + TOP_FOOT_SIZE && Is(t2, t2.top)
    ensures TopLast(t2, segs[i := Segment(segs[i].base, segs[i].size + n)])
  {
    hide Fits, BitsAt, FootAt, BackAt, EndsOk, SegmentsApart, BasesOk, Unmapped, AllHeld, Border;
    var end := Next(t, t.top);
    var segs2 := segs[i := Segment(segs[i].base, segs[i].size + n)];
    AppendChunk(t, segs, n, t2, t.top);
    forall x: nat | Border(t2, x) && end + n < x ensures end + n + TOP_FOOT_SIZE <= x {
      AppendChunk(t, segs, n, t2, x);
      UnmappedIsClear(t, segs, end + TOP_FOOT_SIZE, n, x);
    }
    assert segs2[i] in segs2 && segs2[i].base <= t2.top && Next(t2, t2.top) + TOP_FOOT_SIZE == End(segs2[i]);
  }

  // ----- prepending: new memory before a segment ------------------------------------------

  /** t2 is t with the n bytes at b as one chunk in use. prepend_alloc then cuts it anew. */
  ghost predicate Prepended(t: Tags, b: nat, n: nat, t2: Tags) {
    t2 == t.(head := t.head[b := Head(n, true, true)], starts := t.starts + {b})
  }

  lemma PrependChunk(t: Tags, segs: seq<Segment>, b: nat, n: nat, t2: Tags, a: nat)
    requires Shape(t) && SegsOk(t, segs) && Prepended(t, b, n, t2) && Unmapped(segs, b, n)
    ensures Is(t2, a) <==> Is(t, a) || a == b
    ensures Is(t, a) ==> a != b && t2.head[a] == t.head[a] && Next(t2, a) == Next(t, a) && Next(t, a) != b
    ensures Border(t2, a) <==> Border(t, a) || a == b
    ensures Border(t, a) ==> a != b && t2.head[a] == t.head[a]
    ensures Is(t2, b) && Next(t2, b) == b + n
  {
    hide AllHeld, BasesOk, SegmentsApart, BitsAgree, FeetAgree, Apart, TopLast;
    UnmappedIsClear(t, segs, b, n, a);
    UnmappedIsClear(t, segs, b, n, b);
  }

  lemma PrependOk(t: Tags, segs: seq<Segment>, b: nat, n: nat, t2: Tags)
    requires Shape(t) && SegsOk(t, segs) && Prepended(t, b, n, t2) && Unmapped(segs, b, n)
    requires Is(t, b + n) && t.head[b + n].pinuse
    ensures Shape(t2)
  {
    hide SegsOk, Unmapped, Fits, BitsAt, FootAt, BackAt, Border, EndsOk;
    PrependApart(t, segs, b, n, t2);
    PrependEnds(t, segs, b, n, t2);
    forall a: nat | Is(t2, a) ensures Fits(t2, a) && BitsAt(t2, a) && FootAt(t2, a) && BackAt(t2, a) {
      PrependAt(t, segs, b, n, t2, a);
      PrependBack(t, segs, b, n, t2, a);
    }
  }

  lemma PrependAt(t: Tags, segs: seq<Segment>, b: nat, n: nat, t2: Tags, a: nat)
    requires Shape(t) && SegsOk(t, segs) && Prepended(t, b, n, t2) && Unmapped(segs, b, n) && Is(t2, a)
    requires Is(t, b + n) && t.head[b + n].pinuse
    ensures Fits(t2, a) && BitsAt(t2, a) && FootAt(t2, a)
  {
    hide SegsOk, Apart, EndsOk, BackAt, Prepended, Unmapped;
    PrependChunk(t, segs, b, n, t2, a);
    PrependNew(t, segs, b, n, t2);
    if a != b {
      assert Fits(t, a) && BitsAt(t, a) && FootAt(t, a);
      PrependChunk(t, segs, b, n, t2, Next(t, a));
    }
  }

  lemma PrependNew(t: Tags, segs: seq<Segment>, b: nat, n: nat, t2: Tags)
    requires Shape(t) && SegsOk(t, segs) && Prepended(t, b, n, t2) && Unmapped(segs, b, n)
    requires Is(t, b + n) && t.head[b + n].pinuse
    ensures Is(t2, b) && Fits(t2, b) && BitsAt(t2, b) && FootAt(t2, b) && t2.foot == t.foot && t2.top == t.top
  {
    UnmappedSize(segs, b, n);
    hide SegsOk, Shape, BackAt, Unmapped;
  }

  lemma UnmappedSize(segs: seq<Segment>, b: nat, n: nat)
    requires Unmapped(segs, b, n)
    ensures n >= 4096 && n % 8 == 0 && b % 8 == 0 && b > 0 && b + n <= SIZE_LIMIT
  {
    assert b % 4096 == 0 && n % 4096 == 0 && 0 < b && 0 < n && b + n <= SIZE_LIMIT;
    hide Unmapped;
    PageAligned(b);
    PageAligned(n);
  }

  lemma PageAligned(x: nat)
    requires x % 4096 == 0
    ensures x % 8 == 0 && (x > 0 ==> x >= 4096)
  {
    assert x == 8 * (512 * (x / 4096));
  }

  lemma PrependBack(t: Tags, segs: seq<Segment>, b: nat, n: nat, t2: Tags, a: nat)
    requires Shape(t) && SegsOk(t, segs) && Prepended(t, b, n, t2) && Unmapped(segs, b, n) && Is(t2, a)
    ensures BackAt(t2, a)
  {
    hide SegsOk, Apart, EndsOk, Unmapped, Fits, BitsAt, FootAt;
    PrependChunk(t, segs, b, n, t2, a);
    if a != b {
      assert BackAt(t, a);
      if !t.head[a].pinuse {
        PrependChunk(t, segs, b, n, t2, a - t.foot[a]);
      }
    }
  }

  lemma PrependApart(t: Tags, segs: seq<Segment>, b: nat, n: nat, t2: Tags)
    requires Shape(t) && SegsOk(t, segs) && Prepended(t, b, n, t2) && Unmapped(segs, b, n)
    ensures Apart(t2)
  {
    hide SegsOk, Unmapped, Border, Prepended;
    forall a: nat, x: nat | Is(t2, a) && Border(t2, x) && a < x ensures Next(t2, a) <= x {
      PrependChunk(t, segs, b, n, t2, a);
      PrependChunk(t, segs, b, n, t2, x);
      UnmappedIsClear(t, segs, b, n, x);
      UnmappedIsClear(t, segs, b, n, a);
    }
  }

  lemma PrependEnds(t: Tags, segs: seq<Segment>, b: nat, n: nat, t2: Tags)
    requires Shape(t) && SegsOk(t, segs) && Prepended(t, b, n, t2) && Unmapped(segs, b, n)
    ensures EndsOk(t2) && TopOk(t2)
  {
    hide SegsOk, Unmapped, Apart, BitsAgree, FeetAgree;
    PrependChunk(t, segs, b, n, t2, t.top);
    forall x | x in t2.ends
      ensures x in t2.head && x !in t2.starts && (t2.head[x].cinuse || (Is(t2, t2.top) && x == Next(t2, t2.top)))
    {
      PrependChunk(t, segs, b, n, t2, x);
    }
  }

  /** The segment at index i begins at the new memory now. */
  function Longer(segs: seq<Segment>, i: nat, b: nat, n: nat): seq<Segment>
    requires i < |segs|
  {
    segs[i := Segment(b, segs[i].size + n)]
  }

  lemma PrependSegs(t: Tags, segs: seq<Segment>, b: nat, n: nat, t2: Tags, i: nat)
    requires Shape(t) && SegsOk(t, segs) && Prepended(t, b, n, t2) && Unmapped(segs, b, n)
    requires i < |segs| && segs[i].base == b + n
    ensures SegsOk(t2, Longer(segs, i, b, n))
  {
    hide AllHeld, Held, BasesOk, Fits, BitsAt, FootAt, BackAt, Border, EndsOk, TopLast, SegmentsApart;
    PrependChunk(t, segs, b, n, t2, t.top);
    LongerApart(segs, i, b, n);
    PrependBases(t, segs, b, n, t2, i);
    PrependHeld(t, segs, b, n, t2, i);
    PrependTopLast(t, segs, b, n, t2, i);
  }

  lemma LongerApart(segs: seq<Segment>, i: nat, b: nat, n: nat)
    requires SegmentsApart(segs) && i < |segs| && Unmapped(segs, b, n) && segs[i].base == b + n
    ensures SegmentsApart(Longer(segs, i, b, n))
  {
    var segs2 := Longer(segs, i, b, n);
    forall s | s in segs2 ensures 0 < s.size {
      var j :| 0 <= j < |segs2| && segs2[j] == s;
      assert segs[j] in segs;
    }
    forall j, k | 0 <= j < k < |segs2| ensures End(segs2[j]) <= segs2[k].base || End(segs2[k]) <= segs2[j].base {
      assert segs[j] in segs && segs[k] in segs;
    }
  }

  lemma PrependBases(t: Tags, segs: seq<Segment>, b: nat, n: nat, t2: Tags, i: nat)
    requires Shape(t) && SegsOk(t, segs) && Prepended(t, b, n, t2) && Unmapped(segs, b, n)
    requires i < |segs| && segs[i].base == b + n
    ensures BasesOk(t2, Longer(segs, i, b, n))
  {
    hide AllHeld, Held, Fits, BitsAt, FootAt, BackAt, EndsOk, TopLast, SegmentsApart;
    var segs2 := Longer(segs, i, b, n);
    forall s | s in segs2 ensures 0 < s.base && s.base in t2.starts && s.base in t2.head && t2.head[s.base].pinuse
        && End(s) <= SIZE_LIMIT {
      var j :| 0 <= j < |segs2| && segs2[j] == s;
      assert segs[j] in segs;
      PrependChunk(t, segs, b, n, t2, s.base);
    }
  }

  lemma PrependHeld(t: Tags, segs: seq<Segment>, b: nat, n: nat, t2: Tags, i: nat)
    requires Shape(t) && SegsOk(t, segs) && Prepended(t, b, n, t2) && Unmapped(segs, b, n)
    requires i < |segs| && segs[i].base == b + n
    ensures AllHeld(t2, Longer(segs, i, b, n))
  {
    hide Fits, BitsAt, FootAt, BackAt, EndsOk, TopLast, SegmentsApart, Border, Unmapped;
    var segs2 := Longer(segs, i, b, n);
    forall a: nat | Is(t2, a) ensures Held(segs2, a, Next(t2, a)) {
      PrependChunk(t, segs, b, n, t2, a);
      if a == b {
        assert segs[i] in segs && Is(t, b + n);
        var j :| HeldBy(segs, j, b + n, Next(t, b + n));
        FirstHolds(t, segs, i);
        assert HeldBy(segs2, i, a, b + n);
      } else {
        var j :| HeldBy(segs, j, a, Next(t, a));
        assert HeldBy(segs2, j, a, Next(t, a));
      }
    }
    forall x | x in t2.ends ensures Held(segs2, x, x) {
      var j :| HeldBy(segs, j, x, x);
      assert HeldBy(segs2, j, x, x);
    }
  }

  /** A segment has room for its first chunk. */
  lemma FirstHolds(t: Tags, segs: seq<Segment>, i: nat)
    requires Tiled(t) && SegsOk(t, segs) && i < |segs|
    ensures segs[i].base + 16 <= End(segs[i])
  {
    assert segs[i] in segs;
    var b := segs[i].base;
    assert Is(t, b);
    var j :| HeldBy(segs, j, b, Next(t, b));
    assert i == j;
  }

  lemma PrependTopLast(t: Tags, segs: seq<Segment>, b: nat, n: nat, t2: Tags, i: nat)
    requires Shape(t) && SegsOk(t, segs) && Prepended(t, b, n, t2) && Unmapped(segs, b, n)
    requires i < |segs| && segs[i].base == b + n && Is(t2, t2.top)
    ensures TopLast(t2, Longer(segs, i, b, n))
  {
    hide Fits, BitsAt, FootAt, BackAt, EndsOk, SegmentsApart, BasesOk, AllHeld, Border;
    var end := Next(t, t.top);
    var segs2 := Longer(segs, i, b, n);
    PrependChunk(t, segs, b, n, t2, t.top);
    var s :| s in segs && s.base <= t.top && end + TOP_FOOT_SIZE == End(s);
    forall x: nat | Border(t2, x) && end < x ensures end + TOP_FOOT_SIZE <= x {
      PrependChunk(t, segs, b, n, t2, x);
    }
    var j :| 0 <= j < |segs| && segs[j] == s;
    assert segs2[j] in segs2 && segs2[j].base <= t.top && end + TOP_FOOT_SIZE == End(segs2[j]);
  }
}
