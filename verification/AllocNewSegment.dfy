/** add_segment: top moves to new memory; the segment record and the fenceposts close the old
    segment, and the rest of the old top becomes an ordinary free chunk. */
module AllocNewSegment {
  import opened AllocSizes
  import opened AllocShape
  import opened AllocSegments

  /** Where the chunk with the segment record goes: over the padding behind the old top, or over
      the old top itself when that is too small to stay a chunk. */
  ghost function RecordAt(t: Tags): nat
    requires Is(t, t.top)
  {
    if t.head[t.top].size < MIN_CHUNK_SIZE then t.top else Next(t, t.top)
  }

  ghost predicate Added(t: Tags, base: nat, size: nat, t2: Tags)
    requires Is(t, t.top) && 4096 <= size
  {
    var end := Next(t, t.top);
    var c := RecordAt(t);
    var newEnd := base + size - TOP_FOOT_SIZE;
    && t2.starts == t.starts + {c, base}
    && t2.ends == t.ends - {end} + {c + 32, newEnd}
    && t2.top == base
    && (forall b: nat {:trigger b in t2.head} {:trigger b in t.head} ::
          b in t.head && !(t.top <= b < end + TOP_FOOT_SIZE) && !(base <= b < base + size) ==>
              b in t2.head && t2.head[b] == t.head[b])
    && (forall b: nat {:trigger b in t2.foot} {:trigger b in t.foot} ::
          b in t.foot && !(t.top < b < end + TOP_FOOT_SIZE) ==> b in t2.foot && t2.foot[b] == t.foot[b])
    && (c != t.top ==>
        t.top in t2.head && t2.head[t.top] == t.head[t.top] && c in t2.foot && t2.foot[c] == t.head[t.top].size)
    && c in t2.head && t2.head[c] == Head(32, c == t.top, true)
    && c + 32 in t2.head && t2.head[c + 32] == Head(SIZE_T_SIZE, true, true)
    && base in t2.head && t2.head[base] == Head(size - TOP_FOOT_SIZE, true, false)
    && newEnd in t2.head && t2.head[newEnd] == Head(TOP_FOOT_SIZE, false, false)
  }

  /** Everything an addition is given. */
  ghost predicate Adds(t: Tags, segs: seq<Segment>, base: nat, size: nat, t2: Tags) {
    Shape(t) && SegsOk(t, segs) && 4096 <= size && Unmapped(segs, base, size) && Added(t, base, size, t2)
  }

  lemma AddFacts(t: Tags, segs: seq<Segment>, base: nat, size: nat, t2: Tags)
    requires Adds(t, segs, base, size, t2)
    ensures TopOk(t) && t.head[t.top].size % 8 == 0 && t.head[t.top].size >= 8 && t.top % 8 == 0
    ensures base % 8 == 0 && size % 8 == 0 && size >= 4096 && base > 0
    ensures t2.top == base
    ensures Next(t, t.top) + TOP_FOOT_SIZE <= base || base + size <= t.top
  {
    UnmappedSize(segs, base, size);
    NewElsewhere(t, segs, base, size);
    AddTop(t, base, size, t2);
    hide Shape, SegsOk, Unmapped, Added;
  }

  lemma AddTop(t: Tags, base: nat, size: nat, t2: Tags)
    requires Shape(t) && 4096 <= size && Added(t, base, size, t2)
    ensures TopOk(t) && t.head[t.top].size % 8 == 0 && t.head[t.top].size >= 8 && t.top % 8 == 0 && t2.top == base
  {
    hide Apart, BitsAgree, FeetAgree, EndsOk;
    assert Fits(t, t.top);
  }

  lemma NewElsewhere(t: Tags, segs: seq<Segment>, base: nat, size: nat)
    requires SegsOk(t, segs) && Unmapped(segs, base, size)
    ensures Next(t, t.top) + TOP_FOOT_SIZE <= base || base + size <= t.top
  {
    hide AllHeld, BasesOk, SegmentsApart, Border;
    var s :| s in segs && s.base <= t.top && Next(t, t.top) + TOP_FOOT_SIZE == End(s);
  }

  /** What the addition makes of old chunks and borders. */
  lemma AddOld(t: Tags, segs: seq<Segment>, base: nat, size: nat, t2: Tags, a: nat)
    requires Adds(t, segs, base, size, t2)
    ensures Is(t2, a) <==> Is(t, a) || a == RecordAt(t) || a == base
    ensures Is(t, a) && a != t.top ==>
              a != RecordAt(t) && a != base && t2.head[a] == t.head[a] && Next(t2, a) == Next(t, a)
    ensures Is(t, a) && a != t.top ==> Next(t, a) != Next(t, t.top) && Border(t, Next(t, a))
    ensures Border(t2, a) <==> (Border(t, a) && a != Next(t, t.top)) || a == RecordAt(t) || a == RecordAt(t) + 32
                               || a == base || a == base + size - TOP_FOOT_SIZE
    ensures Border(t, a) && a != t.top && a != Next(t, t.top) ==>
              a in t2.head && t2.head[a] == t.head[a] && a != RecordAt(t) + 32 && a != base
                  && a != base + size - TOP_FOOT_SIZE
  {
    hide AllHeld, BasesOk, SegmentsApart, BitsAgree, FeetAgree;
    AddFacts(t, segs, base, size, t2);
    UnmappedIsClear(t, segs, base, size, a);
    AroundTop(t, segs, a);
    if Is(t, a) {
      AroundTop(t, segs, Next(t, a));
      assert Border(t, Next(t, t.top));
    }
  }

  /** The new chunks and borders. */
  lemma AddNew(t: Tags, segs: seq<Segment>, base: nat, size: nat, t2: Tags)
    requires Adds(t, segs, base, size, t2)
    ensures var c := RecordAt(t);
            && Is(t2, base) && t2.head[base] == Head(size - TOP_FOOT_SIZE, true, false)
            && Border(t2, base + size - TOP_FOOT_SIZE)
            && t2.head[base + size - TOP_FOOT_SIZE] == Head(TOP_FOOT_SIZE, false, false)
            && Is(t2, c) && t2.head[c] == Head(32, c == t.top, true)
            && Border(t2, c + 32) && t2.head[c + 32] == Head(SIZE_T_SIZE, true, true)
            && base + size - TOP_FOOT_SIZE in t2.ends
            && (c != t.top ==>
                Is(t2, t.top) && t2.head[t.top] == t.head[t.top] && c in t2.foot && t2.foot[c] == t.head[t.top].size)
  {
    hide AllHeld, BasesOk, SegmentsApart, BitsAgree, FeetAgree, Unmapped, Apart;
  }

  lemma AddAt(t: Tags, segs: seq<Segment>, base: nat, size: nat, t2: Tags, a: nat)
    requires Adds(t, segs, base, size, t2) && Is(t2, a)
    ensures Fits(t2, a) && BitsAt(t2, a) && FootAt(t2, a)
  {
    AddFacts(t, segs, base, size, t2);
    AddNew(t, segs, base, size, t2);
    if Is(t, a) && a != t.top {
      AddAtOld(t, segs, base, size, t2, a);
    } else {
      AddAtNew(t, segs, base, size, t2, a);
    }
  }

  lemma AddAtOld(t: Tags, segs: seq<Segment>, base: nat, size: nat, t2: Tags, a: nat)
    requires Adds(t, segs, base, size, t2) && Is(t, a) && a != t.top && Is(t2, a)
    ensures Fits(t2, a) && BitsAt(t2, a) && FootAt(t2, a)
  {
    hide SegsOk, Apart, EndsOk, BackAt, Added, Unmapped;
    AddFacts(t, segs, base, size, t2);
    AddOld(t, segs, base, size, t2, a);
    AddNew(t, segs, base, size, t2);
    assert Fits(t, a) && BitsAt(t, a) && FootAt(t, a);
    AddOld(t, segs, base, size, t2, Next(t, a));
    if Free(t, a) {
      AddFoot(t, segs, base, size, t2, a);
    }
  }

  lemma AddFoot(t: Tags, segs: seq<Segment>, base: nat, size: nat, t2: Tags, a: nat)
    requires Adds(t, segs, base, size, t2) && Is(t, a) && a != t.top && Free(t, a)
    ensures Next(t, a) in t2.foot && t2.foot[Next(t, a)] == t.head[a].size
  {
    hide SegsOk, Apart, EndsOk, BitsAgree, Unmapped;
    assert FootAt(t, a);
    AroundTop(t, segs, a);
  }

  lemma AddAtNew(t: Tags, segs: seq<Segment>, base: nat, size: nat, t2: Tags, a: nat)
    requires Adds(t, segs, base, size, t2) && Is(t2, a) && !(Is(t, a) && a != t.top)
    ensures Fits(t2, a) && BitsAt(t2, a) && FootAt(t2, a)
  {
    hide Shape, SegsOk, Added, Unmapped;
    AddFacts(t, segs, base, size, t2);
    AddOld(t, segs, base, size, t2, a);
    AddNew(t, segs, base, size, t2);
  }

  lemma AddBack(t: Tags, segs: seq<Segment>, base: nat, size: nat, t2: Tags, a: nat)
    requires Adds(t, segs, base, size, t2) && Is(t2, a)
    ensures BackAt(t2, a)
  {
    hide Apart, EndsOk, Unmapped, Fits, BitsAt, FootAt, SegsOk;
    AddFacts(t, segs, base, size, t2);
    AddNew(t, segs, base, size, t2);
    AddOld(t, segs, base, size, t2, a);
    if Is(t, a) && a != t.top {
      assert BackAt(t, a);
      if !t.head[a].pinuse {
        AddOld(t, segs, base, size, t2, a - t.foot[a]);
        AroundTop(t, segs, a);
      }
    }
  }

  lemma AddApart(t: Tags, segs: seq<Segment>, base: nat, size: nat, t2: Tags)
    requires Adds(t, segs, base, size, t2)
    ensures Apart(t2)
  {
    hide Border, Added, SegsOk, Unmapped;
    AddFacts(t, segs, base, size, t2);
    AddNew(t, segs, base, size, t2);
    forall a: nat, x: nat | Is(t2, a) && Border(t2, x) && a < x ensures Next(t2, a) <= x {
      AddOld(t, segs, base, size, t2, a);
      AddOld(t, segs, base, size, t2, x);
      AroundTop(t, segs, x);
      AroundTop(t, segs, a);
      UnmappedIsClear(t, segs, base, size, x);
      UnmappedIsClear(t, segs, base, size, a);
    }
  }

  lemma AddEnds(t: Tags, segs: seq<Segment>, base: nat, size: nat, t2: Tags)
    requires Adds(t, segs, base, size, t2)
    ensures EndsOk(t2) && TopOk(t2)
  {
    hide SegsOk, Unmapped, Apart, BitsAgree, FeetAgree;
    AddFacts(t, segs, base, size, t2);
    AddNew(t, segs, base, size, t2);
    forall x | x in t2.ends
      ensures x in t2.head && x !in t2.starts && (t2.head[x].cinuse || (Is(t2, t2.top) && x == Next(t2, t2.top)))
    {
      AddOld(t, segs, base, size, t2, x);
      UnmappedIsClear(t, segs, base, size, x);
    }
  }

  lemma AddOk(t: Tags, segs: seq<Segment>, base: nat, size: nat, t2: Tags)
    requires Adds(t, segs, base, size, t2)
    ensures Shape(t2)
  {
    hide SegsOk, Unmapped, Fits, BitsAt, FootAt, BackAt, Border, EndsOk, Shape, TopOk, Apart;
    AddApart(t, segs, base, size, t2);
    AddEnds(t, segs, base, size, t2);
    AddStarts(t, segs, base, size, t2);
    forall a: nat | Is(t2, a) ensures Fits(t2, a) && BitsAt(t2, a) && FootAt(t2, a) && BackAt(t2, a) {
      AddAt(t, segs, base, size, t2, a);
      AddBack(t, segs, base, size, t2, a);
    }
    Assemble(t2);
  }

  lemma AddStarts(t: Tags, segs: seq<Segment>, base: nat, size: nat, t2: Tags)
    requires Adds(t, segs, base, size, t2)
    ensures t2.starts <= t2.head.Keys
  {
    forall a | a in t2.starts ensures a in t2.head {
      AddOld(t, segs, base, size, t2, a);
    }
  }

  lemma Assemble(t: Tags)
    requires t.starts <= t.head.Keys && Apart(t) && EndsOk(t) && TopOk(t)
    requires forall a: nat :: Is(t, a) ==> Fits(t, a) && BitsAt(t, a) && FootAt(t, a) && BackAt(t, a)
    ensures Shape(t)
  {
  }

  // ----- the segments -------------------------------------------------------------------

  lemma AddSegs(t: Tags, segs: seq<Segment>, base: nat, size: nat, t2: Tags)
    requires Adds(t, segs, base, size, t2)
    ensures SegsOk(t2, [Segment(base, size)] + segs)
  {
    hide Unmapped, Border, EndsOk, Shape, TopOk, Apart, AllHeld, BasesOk, TopLast, SegmentsApart, Added;
    AddNew(t, segs, base, size, t2);
    AddFacts(t, segs, base, size, t2);
    AddedApart(segs, base, size);
    AddBases(t, segs, base, size, t2);
    AddHeld(t, segs, base, size, t2);
    AddTopLast(t, segs, base, size, t2);
  }

  lemma AddedApart(segs: seq<Segment>, base: nat, size: nat)
    requires SegmentsApart(segs) && Unmapped(segs, base, size)
    ensures SegmentsApart([Segment(base, size)] + segs)
  {
    var segs2 := [Segment(base, size)] + segs;
    forall j, k | 0 <= j < k < |segs2| ensures End(segs2[j]) <= segs2[k].base || End(segs2[k]) <= segs2[j].base {
      assert segs2[k] == segs[k - 1] && segs[k - 1] in segs;
      if j > 0 {
        assert segs2[j] == segs[j - 1];
      }
    }
  }

  lemma AddBases(t: Tags, segs: seq<Segment>, base: nat, size: nat, t2: Tags)
    requires Adds(t, segs, base, size, t2)
    ensures BasesOk(t2, [Segment(base, size)] + segs)
  {
    hide AllHeld, Held, Fits, BitsAt, FootAt, BackAt, EndsOk, TopLast, SegmentsApart, Apart, Added;
    AddNew(t, segs, base, size, t2);
    AddFacts(t, segs, base, size, t2);
    forall s | s in [Segment(base, size)] + segs
      ensures 0 < s.base && s.base in t2.starts && s.base in t2.head && t2.head[s.base].pinuse && End(s) <= SIZE_LIMIT
    {
      AddOld(t, segs, base, size, t2, s.base);
    }
  }

  lemma AddHeld(t: Tags, segs: seq<Segment>, base: nat, size: nat, t2: Tags)
    requires Adds(t, segs, base, size, t2)
    ensures AllHeld(t2, [Segment(base, size)] + segs)
  {
    hide Shape, Fits, BitsAt, FootAt, BackAt, SegmentsApart, BasesOk, Unmapped, Added;
    var segs2 := [Segment(base, size)] + segs;
    AddNew(t, segs, base, size, t2);
    AddFacts(t, segs, base, size, t2);
    var s :| s in segs && s.base <= t.top && Next(t, t.top) + TOP_FOOT_SIZE == End(s);
    var i :| 0 <= i < |segs| && segs[i] == s;
    forall a: nat | Is(t2, a) ensures Held(segs2, a, Next(t2, a)) {
      AddOld(t, segs, base, size, t2, a);
      if a == base {
        assert HeldBy(segs2, 0, a, Next(t2, a));
      } else if a == RecordAt(t) || a == t.top {
        assert HeldBy(segs2, i + 1, a, Next(t2, a));
      } else {
        var j :| HeldBy(segs, j, a, Next(t, a));
        assert HeldBy(segs2, j + 1, a, Next(t, a));
      }
    }
    forall x | x in t2.ends ensures Held(segs2, x, x) {
      AddEndsAre(t, segs, base, size, t2, x);
      if x in t.ends {
        var j :| HeldBy(segs, j, x, x);
        assert HeldBy(segs2, j + 1, x, x);
      } else if x == RecordAt(t) + 32 {
        assert HeldBy(segs2, i + 1, x, x);
      } else {
        assert HeldBy(segs2, 0, x, x);
      }
    }
  }

  lemma AddEndsAre(t: Tags, segs: seq<Segment>, base: nat, size: nat, t2: Tags, x: nat)
    requires Adds(t, segs, base, size, t2) && x in t2.ends
    ensures x in t.ends || x == RecordAt(t) + 32 || x == base + size - TOP_FOOT_SIZE
  {
  }

  lemma AddTopLast(t: Tags, segs: seq<Segment>, base: nat, size: nat, t2: Tags)
    requires Adds(t, segs, base, size, t2) && Is(t2, t2.top)
    ensures TopLast(t2, [Segment(base, size)] + segs)
  {
    hide Fits, BitsAt, FootAt, BackAt, EndsOk, BasesOk, AllHeld, Border, Added, SegmentsApart, Apart, BitsAgree,
         FeetAgree;
    var segs2 := [Segment(base, size)] + segs;
    AddNew(t, segs, base, size, t2);
    AddFacts(t, segs, base, size, t2);
    var s :| s in segs && s.base <= t.top && Next(t, t.top) + TOP_FOOT_SIZE == End(s);
    var end := base + size - TOP_FOOT_SIZE;
    forall x: nat | Border(t2, x) && end < x ensures end + TOP_FOOT_SIZE <= x {
      AddOld(t, segs, base, size, t2, x);
      UnmappedIsClear(t, segs, base, size, x);
    }
    assert segs2[0] in segs2 && segs2[0].base <= t2.top && Next(t2, t2.top) + TOP_FOOT_SIZE == End(segs2[0]);
  }
}
