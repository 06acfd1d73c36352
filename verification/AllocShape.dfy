/** Boundary tags: how chunk headers and footers tile the heap, and what each way of
    splitting, taking, releasing and joining chunks does to them. */
module AllocShape {
  import opened AllocSizes

  /** The head word: size, PINUSE_BIT, CINUSE_BIT. */
  datatype Head = Head(size: nat, pinuse: bool, cinuse: bool)

  /** head, foot: the memory words at chunk addresses. starts: where chunks begin now (stale
      words lie elsewhere). ends: the header words behind the last chunk of each segment. */
  datatype Tags = Tags(head: map<nat, Head>, foot: map<nat, nat>, starts: set<nat>, ends: set<nat>, top: nat)

  /** a is the start of a chunk. */
  ghost predicate Is(t: Tags, a: nat) { a in t.starts && a in t.head }

  ghost function Next(t: Tags, a: nat): nat
    requires Is(t, a)
  {
    a + t.head[a].size
  }

  ghost predicate Free(t: Tags, a: nat) { Is(t, a) && !t.head[a].cinuse }

  /** Where a chunk can end: at the start of another or at the end of a segment. */
  ghost predicate Border(t: Tags, x: nat) { x in t.head && (x in t.starts || x in t.ends) }

  // ----- what holds of one chunk ----------------------------------------------------

  /** It is aligned, big enough, and followed by a chunk or the end of its segment. */
  ghost predicate Fits(t: Tags, a: nat)
    requires Is(t, a)
  {
    && a % 8 == 0 && t.head[a].size % 8 == 0 && 8 <= t.head[a].size
    && (a != t.top ==> MIN_CHUNK_SIZE <= t.head[a].size)
    && Border(t, Next(t, a))
  }

  /** PINUSE of the next chunk is CINUSE of this one, and they are not both free. */
  ghost predicate BitsAt(t: Tags, a: nat)
    requires Is(t, a)
  {
    Next(t, a) in t.head && t.head[Next(t, a)].pinuse == t.head[a].cinuse
    && (!t.head[a].cinuse && a != t.top ==> t.head[Next(t, a)].cinuse)
  }

  /** A free chunk writes its size behind its end. */
  ghost predicate FootAt(t: Tags, a: nat)
    requires Is(t, a)
  {
    !t.head[a].cinuse && a != t.top ==> Next(t, a) in t.foot && t.foot[Next(t, a)] == t.head[a].size
  }

  /** A clear PINUSE bit promises a free chunk before this one, of the size in the footer. */
  ghost predicate BackAt(t: Tags, b: nat)
    requires Is(t, b)
  {
    !t.head[b].pinuse ==>
      b in t.foot && t.foot[b] <= b && Free(t, b - t.foot[b]) && Next(t, b - t.foot[b]) == b && b - t.foot[b] != t.top
  }

  // ----- what holds of the heap --------------------------------------------------------

  ghost predicate Tiled(t: Tags) {
    && t.starts <= t.head.Keys
    && (forall a: nat {:trigger Is(t, a)} :: Is(t, a) ==> Fits(t, a))
  }

  ghost predicate Apart(t: Tags) {
    forall a: nat, x: nat {:trigger Is(t, a), Border(t, x)} :: Is(t, a) && Border(t, x) && a < x ==> Next(t, a) <= x
  }

  ghost predicate BitsAgree(t: Tags) { forall a: nat {:trigger Is(t, a)} :: Is(t, a) ==> BitsAt(t, a) }

  ghost predicate FeetAgree(t: Tags) { forall a: nat {:trigger Is(t, a)} :: Is(t, a) ==> FootAt(t, a) && BackAt(t, a) }

  /** The fenceposts look like chunks in use; only the word behind top does not. */
  ghost predicate EndsOk(t: Tags) {
    forall x <- t.ends :: x in t.head && x !in t.starts && (t.head[x].cinuse || (Is(t, t.top) && x == Next(t, t.top)))
  }

  ghost predicate TopOk(t: Tags) {
    Is(t, t.top) && !t.head[t.top].cinuse && t.head[t.top].pinuse && Next(t, t.top) in t.ends
  }

  ghost predicate Shape(t: Tags) {
    Tiled(t) && Apart(t) && BitsAgree(t) && FeetAgree(t) && EndsOk(t) && TopOk(t)
  }

  // ----- one edit for all: the chunks between lo and hi are replaced ---------------------

  /** The space from lo to hi is cut anew into one chunk (cut == hi) or two. The first of two
      is in use. used1, used2: CINUSE of the chunk at lo and of the last one. */
  datatype Edit = Edit(lo: nat, cut: nat, hi: nat, used1: bool, used2: bool)

  /** The last of the new chunks. */
  function Last(e: Edit): nat { if e.cut < e.hi then e.cut else e.lo }

  ghost predicate MovesTop(t: Tags, e: Edit) { e.lo <= t.top < e.hi }

  ghost predicate Edits(t: Tags, e: Edit) {
    && Is(t, e.lo) && e.lo < e.cut <= e.hi && Border(t, e.hi)
    && (forall x <- t.ends :: !(e.lo < x < e.hi))
    && (MovesTop(t, e) ==> Is(t, t.top) && Next(t, t.top) == e.hi && !e.used2)
    && e.lo % 8 == 0 && e.cut % 8 == 0 && e.hi % 8 == 0
    && (e.cut < e.hi ==> e.used1 && MIN_CHUNK_SIZE <= e.cut - e.lo)
    && (e.cut == e.hi ==> e.used1 == e.used2)
    && (!e.used1 ==> t.head[e.lo].pinuse)
    && (!e.used2 && !MovesTop(t, e) ==> t.head[e.hi].cinuse)
    && (MovesTop(t, e) || MIN_CHUNK_SIZE <= e.hi - Last(e))
  }

  /** t2 is t after the edit. */
  ghost predicate Edited(t: Tags, e: Edit, t2: Tags)
    requires Edits(t, e)
  {
    && t2.ends == t.ends
    && t2.top == (if MovesTop(t, e) then Last(e) else t.top)
    && (forall b: nat {:trigger b in t2.starts} {:trigger b in t.starts} ::
          b in t2.starts <==> if e.lo <= b < e.hi then b == e.lo || b == e.cut else b in t.starts)
    && (forall b: nat {:trigger b in t2.head} {:trigger b in t.head} :: b in t.head && !(e.lo <= b < e.hi) ==>
          b in t2.head && t2.head[b] == if b == e.hi then t.head[b].(pinuse := e.used2) else t.head[b])
    && e.lo in t2.head && t2.head[e.lo] == Head(e.cut - e.lo, t.head[e.lo].pinuse, e.used1)
    && (e.cut < e.hi ==> e.cut in t2.head && t2.head[e.cut] == Head(e.hi - e.cut, true, e.used2))
    && (forall b: nat {:trigger b in t2.foot} {:trigger b in t.foot} :: b in t.foot && !(e.lo < b <= e.hi) ==>
          b in t2.foot && t2.foot[b] == t.foot[b])
    && (!e.used2 && !MovesTop(t, e) ==> e.hi in t2.foot && t2.foot[e.hi] == e.hi - Last(e))
  }

  /** The header before the edit, with the one bit that the edit changes outside its space. */
  function Bent(h: Head, b: nat, e: Edit): Head { if b == e.hi then h.(pinuse := e.used2) else h }

  /** A chunk outside the edited space is what it was. */
  lemma Kept(t: Tags, e: Edit, t2: Tags, b: nat)
    requires Tiled(t) && Apart(t) && Edits(t, e) && Edited(t, e, t2) && !(e.lo <= b < e.hi)
    ensures Is(t2, b) <==> Is(t, b)
    ensures Is(t, b) ==> t2.head[b] == Bent(t.head[b], b, e) && Next(t2, b) == Next(t, b)
    ensures Is(t, b) ==> Next(t, b) <= e.lo || e.hi <= b
  {
    if Is(t, b) {
      assert Border(t, e.lo);
    }
  }

  /** A border outside the edited space stays one. */
  lemma BorderKept(t: Tags, e: Edit, t2: Tags, x: nat)
    requires Tiled(t) && EndsOk(t) && Edits(t, e) && Edited(t, e, t2) && !(e.lo < x < e.hi)
    ensures Border(t2, x) <==> Border(t, x)
    ensures Border(t, x) && x != e.lo ==> t2.head[x] == Bent(t.head[x], x, e)
    ensures Border(t, x) ==> t2.head[x].pinuse == Bent(t.head[x], x, e).pinuse
  {
    if x in t.ends || x in t2.ends {
      assert x !in t.starts;
    }
  }

  /** The chunks inside it are the new ones. */
  lemma NewChunks(t: Tags, e: Edit, t2: Tags, b: nat)
    requires Tiled(t) && EndsOk(t) && Edits(t, e) && Edited(t, e, t2) && e.lo <= b < e.hi
    ensures Is(t2, b) <==> b == e.lo || b == e.cut
    ensures Border(t2, b) ==> Is(t2, b)
    ensures Is(t2, e.lo) && t2.head[e.lo] == Head(e.cut - e.lo, t.head[e.lo].pinuse, e.used1)
    ensures e.cut < e.hi ==> Is(t2, e.cut) && t2.head[e.cut] == Head(e.hi - e.cut, true, e.used2)
    ensures Border(t2, e.hi) && t2.head[e.hi] == t.head[e.hi].(pinuse := e.used2)
  {
  }

  /** What an edit asks for, and what it says of top, without the quantifiers. */
  lemma EditFacts(t: Tags, e: Edit, t2: Tags)
    requires Edits(t, e) && Edited(t, e, t2)
    ensures Is(t, e.lo) && e.lo < e.cut <= e.hi && e.lo % 8 == 0 && e.cut % 8 == 0 && e.hi % 8 == 0 && e.hi in t.head
    ensures e.cut < e.hi ==> e.used1 && MIN_CHUNK_SIZE <= e.cut - e.lo
    ensures e.cut == e.hi ==> e.used1 == e.used2
    ensures !e.used1 ==> t.head[e.lo].pinuse
    ensures !e.used2 && !MovesTop(t, e) ==> t.head[e.hi].cinuse && e.hi in t2.foot && t2.foot[e.hi] == e.hi - Last(e)
    ensures MovesTop(t, e) || MIN_CHUNK_SIZE <= e.hi - Last(e)
    ensures t2.top == (if MovesTop(t, e) then Last(e) else t.top) && t2.ends == t.ends
    ensures MovesTop(t, e) ==> Is(t, t.top) && Next(t, t.top) == e.hi && !e.used2
  {
  }

  lemma EditFits(t: Tags, e: Edit, t2: Tags, b: nat)
    requires Tiled(t) && Apart(t) && EndsOk(t) && Edits(t, e) && Edited(t, e, t2) && Is(t2, b)
    ensures Fits(t2, b)
  {
    hide Edited, Edits, Apart, EndsOk, Border, Tiled;
    EditFacts(t, e, t2);
    if e.lo <= b < e.hi {
      NewChunks(t, e, t2, b);
      NewBorder(t, e, t2);
      AlignedGap(e.lo, e.cut);
      AlignedGap(e.cut, e.hi);
    } else {
      Kept(t, e, t2, b);
      FitsThere(t, b);
      BorderKept(t, e, t2, Next(t, b));
      EditFactTop(t, e, t2, b);
    }
  }

  lemma FitsThere(t: Tags, b: nat)
    requires Tiled(t) && Is(t, b)
    ensures Fits(t, b)
  {
  }

  /** A chunk outside the edited space is not the new top unless it was top. */
  lemma EditFactTop(t: Tags, e: Edit, t2: Tags, b: nat)
    requires Edits(t, e) && Edited(t, e, t2) && !(e.lo <= b < e.hi)
    ensures b == t2.top <==> b == t.top
  {
  }

  lemma NewBorder(t: Tags, e: Edit, t2: Tags)
    requires Edits(t, e) && Edited(t, e, t2)
    ensures e.cut < e.hi ==> Border(t2, e.cut)
  {
  }

  lemma EditApart(t: Tags, e: Edit, t2: Tags)
    requires Tiled(t) && Apart(t) && EndsOk(t) && Edits(t, e) && Edited(t, e, t2)
    ensures Apart(t2)
  {
    hide Edited, Edits, EndsOk, Border, Tiled;
    EditFacts(t, e, t2);
    forall a: nat, x: nat | Is(t2, a) && Border(t2, x) && a < x ensures Next(t2, a) <= x {
      if e.lo <= a < e.hi {
        NewChunks(t, e, t2, a);
        if x < e.hi {
          NewChunks(t, e, t2, x);
        }
      } else {
        Kept(t, e, t2, a);
        if !(e.lo < x < e.hi) {
          BorderKept(t, e, t2, x);
        }
      }
    }
  }

  lemma EditBits(t: Tags, e: Edit, t2: Tags, b: nat)
    requires Shape(t) && Edits(t, e) && Edited(t, e, t2) && Is(t2, b)
    ensures BitsAt(t2, b)
  {
    hide Edited, Edits, Apart, EndsOk, Tiled, FeetAgree;
    EditFacts(t, e, t2);
    if e.lo <= b < e.hi {
      NewChunks(t, e, t2, b);
    } else {
      Kept(t, e, t2, b);
      Follows(t, b);
      BorderKept(t, e, t2, Next(t, b));
      if Next(t, b) == e.lo {
        NewChunks(t, e, t2, e.lo);
      }
      assert BitsAt(t, b);
      TopStays(t, e, t2);
    }
  }

  lemma Follows(t: Tags, b: nat)
    requires Tiled(t) && Is(t, b)
    ensures Border(t, Next(t, b)) && Next(t, b) > b
  {
  }

  lemma TopStays(t: Tags, e: Edit, t2: Tags)
    requires Shape(t) && Edits(t, e) && Edited(t, e, t2)
    ensures TopOk(t2) && Next(t2, t2.top) == Next(t, t.top)
    ensures !(e.lo <= t2.top < e.hi) ==> t2.top == t.top
    ensures !(e.lo <= t.top < e.hi) ==> t2.top == t.top
  {
    hide Edited, Edits, EndsOk, Border, Tiled, FeetAgree, Apart;
    EditFacts(t, e, t2);
    assert TopOk(t);
    if MovesTop(t, e) {
      NewChunks(t, e, t2, e.lo);
    } else {
      Kept(t, e, t2, t.top);
      if t.top == e.hi {
        assert e.used2;
      }
    }
  }

  lemma EditFoot(t: Tags, e: Edit, t2: Tags, b: nat)
    requires Shape(t) && Edits(t, e) && Edited(t, e, t2) && Is(t2, b)
    ensures FootAt(t2, b)
  {
    hide Edited, Edits, EndsOk, Border, Tiled, Apart, BitsAgree, TopOk;
    EditFacts(t, e, t2);
    TopStays(t, e, t2);
    if e.lo <= b < e.hi {
      NewChunks(t, e, t2, b);
    } else {
      Kept(t, e, t2, b);
      assert FootAt(t, b);
      Follows(t, b);
      if !t.head[b].cinuse && b != t.top {
        FootKept(t, e, t2, Next(t, b));
      }
    }
  }

  lemma FootKept(t: Tags, e: Edit, t2: Tags, b: nat)
    requires Edits(t, e) && Edited(t, e, t2) && !(e.lo < b <= e.hi) && b in t.foot
    ensures b in t2.foot && t2.foot[b] == t.foot[b]
  {
  }

  lemma EditBack(t: Tags, e: Edit, t2: Tags, b: nat)
    requires Shape(t) && Edits(t, e) && Edited(t, e, t2) && Is(t2, b)
    ensures BackAt(t2, b)
  {
    hide Edited, Edits, EndsOk, Border, Tiled, Apart, BitsAgree, TopOk;
    EditFacts(t, e, t2);
    TopStays(t, e, t2);
    if e.lo <= b < e.hi {
      NewChunks(t, e, t2, b);
      if b == e.lo && !t.head[b].pinuse {
        BackKept(t, e, t2, b);
      }
    } else {
      Kept(t, e, t2, b);
      if b == e.hi {
        NewChunks(t, e, t2, e.lo);
        HiStarts(t, e);
      } else if !t.head[b].pinuse {
        BackKept(t, e, t2, b);
      }
    }
  }

  lemma HiStarts(t: Tags, e: Edit)
    requires Shape(t) && Edits(t, e) && Is(t, e.hi)
    ensures !MovesTop(t, e)
  {
  }

  lemma BackKept(t: Tags, e: Edit, t2: Tags, b: nat)
    requires Shape(t) && Edits(t, e) && Edited(t, e, t2) && Is(t, b) && !t.head[b].pinuse && !(e.lo < b <= e.hi)
    ensures b in t2.foot && t2.foot[b] == t.foot[b] && t2.foot[b] <= b
    ensures var p := b - t2.foot[b]; Free(t2, p) && Next(t2, p) == b && p != t2.top
  {
    hide Edited, Edits, EndsOk, Border, Tiled, Apart, BitsAgree, TopOk;
    EditFacts(t, e, t2);
    TopStays(t, e, t2);
    assert BackAt(t, b);
    FootKept(t, e, t2, b);
    var p := b - t.foot[b];
    if e.lo <= p < e.hi {
      ReachesHi(t, e, p);
    }
    Kept(t, e, t2, p);
  }

  /** A chunk inside the edited space does not reach beyond it. */
  lemma ReachesHi(t: Tags, e: Edit, p: nat)
    requires Tiled(t) && Apart(t) && Edits(t, e) && Is(t, p) && e.lo <= p < e.hi
    ensures p < Next(t, p) <= e.hi
  {
  }

  lemma EditEnds(t: Tags, e: Edit, t2: Tags)
    requires Shape(t) && Edits(t, e) && Edited(t, e, t2)
    ensures EndsOk(t2)
  {
    hide Edits, Border, Tiled, Apart, BitsAgree, FeetAgree;
    EditFacts(t, e, t2);
    TopStays(t, e, t2);
    forall x | x in t2.ends
      ensures x in t2.head && x !in t2.starts && (t2.head[x].cinuse || (Is(t2, t2.top) && x == Next(t2, t2.top)))
    {
      NotInside(t, e, x);
    }
  }

  lemma NotInside(t: Tags, e: Edit, x: nat)
    requires Tiled(t) && EndsOk(t) && Edits(t, e) && x in t.ends
    ensures !(e.lo <= x < e.hi)
  {
  }

  /** Whatever is cut anew within these rules leaves a well-formed heap. */
  lemma EditOk(t: Tags, e: Edit, t2: Tags)
    requires Shape(t) && Edits(t, e) && Edited(t, e, t2)
    ensures Shape(t2)
  {
    hide Apart, EndsOk, TopOk, Edits, Fits, BitsAt, FootAt, BackAt;
    EditStarts(t, e, t2);
    EditApart(t, e, t2);
    EditEnds(t, e, t2);
    TopStays(t, e, t2);
    forall b: nat | Is(t2, b) ensures Fits(t2, b) && BitsAt(t2, b) && FootAt(t2, b) && BackAt(t2, b) {
      EditFits(t, e, t2, b);
      EditBits(t, e, t2, b);
      EditFoot(t, e, t2, b);
      EditBack(t, e, t2, b);
    }
  }

  lemma EditStarts(t: Tags, e: Edit, t2: Tags)
    requires Tiled(t) && Edits(t, e) && Edited(t, e, t2)
    ensures t2.starts <= t2.head.Keys
  {
  }
}
