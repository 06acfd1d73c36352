/** The second pass: what each item's step does to the buffer and to the running offset. */
module DasmLink {
  import opened DasmLabels
  import opened DasmShrink
  import opened DasmActions
  import opened DasmAsm
  import opened DasmFlat

  /** References are resolved: to the position of the definition they name, or, for a global label
      that is not defined here, to its number, negated. */
  ghost predicate Resolved(log: seq<Event>, b: map<nat, int>) {
    forall i: nat {:trigger log[i]} :: i < |log| && log[i].Ref? ==>
      && log[i].slot in b
      && b[log[i].slot] == (match Resolve(log, i) case Some(d) => d case None => -Number(log[i].l))
      && (Resolve(log, i).None? ==> log[i].l.Lg? && log[i].l.i >= 10)
  }

  function Number(l: Label): int { l.i }

  /** The buffer when the items before |cuts| are linked. b0: the references. */
  ghost predicate WordOk(lists: seq<seq<Action>>, f: seq<Item>, cells: seq<Cell>, cuts: seq<nat>, b0: map<nat, int>,
                         b: map<nat, int>, j: nat)
    requires j < |f| == |cells| && |cuts| <= |cells|
  {
    var act := Act(lists, f[j]);
    var x := f[j].slot;
    && (act.Enter? ==> x in b && b[x] == f[j].start)
    && (act.Imm? || act.Space? ==> x in b && b[x] == f[j].arg)
    && (Refers(act) ==> x in b && x in b0 && b[x] == b0[x])
    && (Rel(act) ==> x + 1 in b && b[x + 1] == if j < |cuts| then cuts[j] else f[j].est + 4)
    && (Labels(act) ==> x in b && b[x] == if j < |cuts| then At(cells, cuts, j) else f[j].est)
    && (act.Align? ==> x in b && b[x] == f[j].est + act.mask)
  }

  ghost predicate Words(lists: seq<seq<Action>>, f: seq<Item>, cells: seq<Cell>, cuts: seq<nat>, b0: map<nat, int>,
                        b: map<nat, int>) {
    && |f| == |cells| && |cuts| <= |cells|
    && forall j: nat {:trigger f[j]} :: j < |f| ==> WordOk(lists, f, cells, cuts, b0, b, j)
  }

  /** What the second pass starts from. */
  ghost predicate Ready(lists: seq<seq<Action>>, a: Asm, b0: map<nat, int>) {
    && AsmOk(lists, a) && Resolved(a.table.log, b0)
    && (forall x {:trigger x in a.fixed} :: x in a.fixed ==> x in b0 && b0[x] == a.fixed[x])
    && forall s: nat {:trigger a.trace[s]} :: s < |a.trace| ==> Closed(lists, a.trace[s])
  }

  ghost function All(a: Asm): seq<Item> { Flat(a.trace, |a.trace|) }

  ghost function Cells(lists: seq<seq<Action>>, a: Asm, b0: map<nat, int>): seq<Cell> { CellsOf(lists, All(a), b0) }

  lemma ReadyWords(lists: seq<seq<Action>>, a: Asm, b0: map<nat, int>)
    requires Ready(lists, a, b0)
    ensures Words(lists, All(a), Cells(lists, a, b0), [], b0, b0)
  {
    hide ListsOk, TableOk, TracesOk, EventsOk, BelowOk, Resolve;
    var f := All(a);
    forall j: nat | j < |f| ensures WordOk(lists, f, Cells(lists, a, b0), [], b0, b0, j) {
      var s, i := FlatIs(a.trace, |a.trace|, j);
      assert ItemHeld(lists, a, a.trace[s][i]);
      var act := Act(lists, f[j]);
      if Refers(act) {
        var e := Ref(NameOf(act, f[j].arg), f[j].slot, KindOf(act));
        var n :| 0 <= n < |a.table.log| && a.table.log[n] == e;
      }
    }
  }

  // ----- where references point ---------------------------------------------------------------

  /** The flat index of the item at place i of section s. */
  ghost function Place(a: Asm, s: nat, i: nat): nat
    requires s <= |a.trace|
  {
    |Flat(a.trace, s)| + i
  }

  /** A reference to a defined label holds the position of a label item. */
  lemma TargetIs(lists: seq<seq<Action>>, a: Asm, b0: map<nat, int>, k: nat) returns (s: nat, i: nat)
    requires Ready(lists, a, b0) && k < |All(a)| && Refers(Act(lists, All(a)[k]))
    requires All(a)[k].slot in b0 && b0[All(a)[k].slot] > 0
    ensures s < |a.trace| && i < |a.trace[s]| && Place(a, s, i) < |All(a)| && All(a)[Place(a, s, i)] == a.trace[s][i]
    ensures Labels(Act(lists, a.trace[s][i])) && a.trace[s][i].slot == b0[All(a)[k].slot]
    ensures exists n: nat :: n < |a.table.log| && a.table.log[n].Ref? && a.table.log[n].slot == All(a)[k].slot
                          && a.table.log[n].l == NameOf(Act(lists, All(a)[k]), All(a)[k].arg)
                          && a.table.log[n].kind == KindOf(Act(lists, All(a)[k]))
                          && Resolve(a.table.log, n) == Some(a.trace[s][i].slot)
  {
    hide ListsOk, TableOk, TracesOk, BelowOk, Resolve, FixedOk;
    var f := All(a);
    var act := Act(lists, f[k]);
    var s0, i0 := FlatIs(a.trace, |a.trace|, k);
    assert ItemHeld(lists, a, a.trace[s0][i0]);
    var e := Ref(NameOf(act, f[k].arg), f[k].slot, KindOf(act));
    var n :| 0 <= n < |a.table.log| && a.table.log[n] == e;
    assert Resolve(a.table.log, n).Some?;
    var j := ResolveMeans(a.table.log, n);
    assert a.table.log[j] in a.table.log && EventOk(lists, a, a.table.log[j]);
    s, i :| LabelHere(lists, a.trace, s, i, b0[f[k].slot], e.l);
    FlatAt(a.trace, |a.trace|, s, i);
  }

  /** Labels at the same position are the same item. */
  lemma OneLabel(lists: seq<seq<Action>>, a: Asm, j: nat, k: nat)
    requires TracesOk(lists, a) && j < k < |All(a)| && Labels(Act(lists, All(a)[j]))
    ensures All(a)[j].slot < All(a)[k].slot
  {
    FlatSlots(lists, a, j, k);
  }

  /** The cell of a branch leads to the label that the branch names. */
  lemma JumpTarget(lists: seq<seq<Action>>, a: Asm, b0: map<nat, int>, k: nat) returns (s: nat, i: nat)
    requires Ready(lists, a, b0) && k < |All(a)| && Rel(Act(lists, All(a)[k]))
    requires All(a)[k].slot in b0 && b0[All(a)[k].slot] > 0
    ensures s < |a.trace| && i < |a.trace[s]| && Place(a, s, i) < |All(a)| && All(a)[Place(a, s, i)] == a.trace[s][i]
    ensures Labels(Act(lists, a.trace[s][i])) && a.trace[s][i].slot == b0[All(a)[k].slot]
    ensures Cells(lists, a, b0)[k].Jump? && Cells(lists, a, b0)[k].target == Place(a, s, i) && Place(a, s, i) != k
    ensures a.trace[s][i].slot > All(a)[k].slot <==> Place(a, s, i) > k
    ensures a.trace[s][i].slot / SEC == s
  {
    hide ListsOk, TableOk, BelowOk, Resolve, FixedOk, EventsOk, ItemsHeld, Resolved, Trace;
    s, i := TargetIs(lists, a, b0, k);
    var f, t := All(a), Place(a, s, i);
    forall j | 0 <= j < t && Labels(Act(lists, f[j])) ensures f[j].slot != f[t].slot {
      OneLabel(lists, a, j, t);
    }
    FindLabelThere(lists, f, f[t].slot, 0, t);
    if t > k {
      FlatSlots(lists, a, k, t);
    } else if t < k {
      OneLabel(lists, a, t, k);
    }
    SecIs(lists, a, s);
    assert SecOk(lists, a, s);
    SlotRange(lists, a.trace[s], s, i);
    InSection(a.trace[s][i].slot, s);
  }

  // ----- the steps ------------------------------------------------------------------------------

  ghost predicate SoFar(cells: seq<Cell>, cuts: seq<nat>) {
    |cuts| <= |cells| && forall j {:trigger cuts[j]} :: 0 <= j < |cuts| ==> cuts[j] == CutOf(cells, cuts[..j], j)
  }

  lemma AtPrefix(cells: seq<Cell>, cuts: seq<nat>, c: nat, j: nat)
    requires j <= |cuts| && j <= |cells|
    ensures At(cells, cuts + [c], j) == At(cells, cuts, j)
  {
    assert (cuts + [c])[..|cuts|] == cuts;
    SumPrefix(cuts + [c], |cuts|, j);
  }

  lemma SoFarMore(cells: seq<Cell>, cuts: seq<nat>, c: nat)
    requires SoFar(cells, cuts) && |cuts| < |cells| && c == CutOf(cells, cuts, |cuts|)
    ensures SoFar(cells, cuts + [c])
  {
    var cuts2 := cuts + [c];
    forall j | 0 <= j < |cuts2| ensures cuts2[j] == CutOf(cells, cuts2[..j], j) {
      assert cuts2[..j] == cuts[..j];
      if j == |cuts| {
        assert cuts[..j] == cuts;
      }
    }
  }

  /** Item k is linked; only its own words have changed. */
  lemma WordsStep(lists: seq<seq<Action>>, a: Asm, b0: map<nat, int>, b: map<nat, int>, cuts: seq<nat>, c: nat,
                  b2: map<nat, int>)
    requires TracesOk(lists, a) && Words(lists, All(a), Cells(lists, a, b0), cuts, b0, b) && |cuts| < |All(a)|
    requires var it := All(a)[|cuts|];
             forall y {:trigger y in b2} {:trigger y in b} ::
                 y in b && !(it.slot <= y < it.slot + Slots(Act(lists, it))) ==> y in b2 && b2[y] == b[y]
    requires WordOk(lists, All(a), Cells(lists, a, b0), cuts + [c], b0, b2, |cuts|)
    ensures Words(lists, All(a), Cells(lists, a, b0), cuts + [c], b0, b2)
  {
    hide TracesOk, Cells, WordOk, Act, Slots, Flat;
    var f := All(a);
    forall j: nat | j < |f| ensures WordOk(lists, f, Cells(lists, a, b0), cuts + [c], b0, b2, j) {
      if j != |cuts| {
        assert f[j] == f[j];
        if j < |cuts| {
          FlatSlots(lists, a, j, |cuts|);
        } else {
          FlatSlots(lists, a, |cuts|, j);
        }
        WordKept(lists, f, Cells(lists, a, b0), cuts, c, b0, b, b2, j);
      }
    }
  }

  lemma WordKept(lists: seq<seq<Action>>, f: seq<Item>, cells: seq<Cell>, cuts: seq<nat>, c: nat, b0: map<nat, int>,
                 b: map<nat, int>, b2: map<nat, int>, j: nat)
    requires j < |f| == |cells| && |cuts| < |cells| && WordOk(lists, f, cells, cuts, b0, b, j) && j != |cuts|
    requires forall y {:trigger y in b2} {:trigger y in b} ::
               y in b && f[j].slot <= y < f[j].slot + Slots(Act(lists, f[j])) ==> y in b2 && b2[y] == b[y]
    ensures WordOk(lists, f, cells, cuts + [c], b0, b2, j)
  {
    if j < |cuts| {
      AtPrefix(cells, cuts, c, j);
    }
  }

  /** The running offset at item i of section s. */
  ghost predicate OffsetOk(a: Asm, cuts: seq<nat>, s: nat, ofs: int) {
    s < |a.secs| && ofs == Base(a.secs, s) - Sum(cuts, |cuts|)
  }

  /** The final offset of the item is its estimate plus the running offset. */
  lemma OffsetAt(lists: seq<seq<Action>>, a: Asm, b0: map<nat, int>, cuts: seq<nat>, s: nat, i: nat, ofs: int)
    requires TracesOk(lists, a) && s < |a.trace| && i < |a.trace[s]| && |cuts| == Place(a, s, i)
             && OffsetOk(a, cuts, s, ofs)
    ensures |cuts| < |All(a)| && All(a)[|cuts|] == a.trace[s][i]
    ensures At(Cells(lists, a, b0), cuts, |cuts|) == a.trace[s][i].est + ofs
  {
    FlatAt(a.trace, |a.trace|, s, i);
    GuessAt(lists, a, b0, s, i);
  }

  /** An item without label, reference or alignment: nothing is saved. */
  lemma LinkPlain(lists: seq<seq<Action>>, a: Asm, b0: map<nat, int>, b: map<nat, int>, cuts: seq<nat>)
    requires TracesOk(lists, a) && Words(lists, All(a), Cells(lists, a, b0), cuts, b0, b) && |cuts| < |All(a)|
             && SoFar(Cells(lists, a, b0), cuts)
    requires var act := Act(lists, All(a)[|cuts|]); !Rel(act) && !Labels(act) && !act.Align?
    ensures Words(lists, All(a), Cells(lists, a, b0), cuts + [0], b0, b) && SoFar(Cells(lists, a, b0), cuts + [0])
  {
    hide TracesOk, Flat;
    assert All(a)[|cuts|] == All(a)[|cuts|];
    SoFarMore(Cells(lists, a, b0), cuts, 0);
    WordsStep(lists, a, b0, b, cuts, 0, b);
  }

  /** A label gets its final offset. */
  lemma LinkMark(lists: seq<seq<Action>>, a: Asm, b0: map<nat, int>, b: map<nat, int>, cuts: seq<nat>, s: nat, i: nat,
                 ofs: int)
    requires TracesOk(lists, a) && Words(lists, All(a), Cells(lists, a, b0), cuts, b0, b)
             && SoFar(Cells(lists, a, b0), cuts)
    requires s < |a.trace| && i < |a.trace[s]| && |cuts| == Place(a, s, i) && OffsetOk(a, cuts, s, ofs)
             && Labels(Act(lists, a.trace[s][i]))
    ensures var x := a.trace[s][i].slot;
            x in b && var b2 := b[x := b[x] + ofs];
            Words(lists, All(a), Cells(lists, a, b0), cuts + [0], b0, b2) && SoFar(Cells(lists, a, b0), cuts + [0])
  {
    hide TracesOk, Flat;
    OffsetAt(lists, a, b0, cuts, s, i, ofs);
    assert WordOk(lists, All(a), Cells(lists, a, b0), cuts, b0, b, |cuts|);
    var x := a.trace[s][i].slot;
    SoFarMore(Cells(lists, a, b0), cuts, 0);
    AtPrefix(Cells(lists, a, b0), cuts, 0, |cuts|);
    WordsStep(lists, a, b0, b, cuts, 0, b[x := b[x] + ofs]);
  }

  /** Alignment gives back what it does not need. */
  lemma LinkPad(lists: seq<seq<Action>>, a: Asm, b0: map<nat, int>, b: map<nat, int>, cuts: seq<nat>, s: nat, i: nat,
                ofs: int)
    requires TracesOk(lists, a) && Words(lists, All(a), Cells(lists, a, b0), cuts, b0, b)
             && SoFar(Cells(lists, a, b0), cuts)
    requires s < |a.trace| && i < |a.trace[s]| && |cuts| == Place(a, s, i) && OffsetOk(a, cuts, s, ofs)
             && Act(lists, a.trace[s][i]).Align?
    ensures var x := a.trace[s][i].slot;
            x in b && var c := (b[x] + ofs) % (Act(lists, a.trace[s][i]).mask + 1);
            Words(lists, All(a), Cells(lists, a, b0), cuts + [c], b0, b) && SoFar(Cells(lists, a, b0), cuts + [c])
  {
    hide TracesOk, Flat;
    OffsetAt(lists, a, b0, cuts, s, i, ofs);
    assert WordOk(lists, All(a), Cells(lists, a, b0), cuts, b0, b, |cuts|);
    var x := a.trace[s][i].slot;
    var c: nat := (b[x] + ofs) % (Act(lists, a.trace[s][i]).mask + 1);
    SoFarMore(Cells(lists, a, b0), cuts, c);
    WordsStep(lists, a, b0, b, cuts, c, b);
  }

  /** A branch stores what it saves. */
  lemma LinkJump(lists: seq<seq<Action>>, a: Asm, b0: map<nat, int>, b: map<nat, int>, cuts: seq<nat>, s: nat, i: nat,
                 c: nat)
    requires TracesOk(lists, a) && Words(lists, All(a), Cells(lists, a, b0), cuts, b0, b)
             && SoFar(Cells(lists, a, b0), cuts)
    requires s < |a.trace| && i < |a.trace[s]| && |cuts| == Place(a, s, i) && Rel(Act(lists, a.trace[s][i]))
    requires |cuts| < |All(a)| && All(a)[|cuts|] == a.trace[s][i] && c == CutOf(Cells(lists, a, b0), cuts, |cuts|)
    ensures var x := a.trace[s][i].slot;
            Words(lists, All(a), Cells(lists, a, b0), cuts + [c], b0, b[x + 1 := c])
                && SoFar(Cells(lists, a, b0), cuts + [c])
  {
    hide TracesOk, Flat, CutOf;
    assert WordOk(lists, All(a), Cells(lists, a, b0), cuts, b0, b, |cuts|);
    var x := a.trace[s][i].slot;
    SoFarMore(Cells(lists, a, b0), cuts, c);
    WordsStep(lists, a, b0, b, cuts, c, b[x + 1 := c]);
  }

  /** The distance that the second pass looks at, for the branch at x in section s, from the
      buffer: lpos is the label's position, in section st. */
  ghost predicate DistanceKnown(cells: seq<Cell>, cuts: seq<nat>, secs: seq<Sec>, b: map<nat, int>, x: nat, s: nat,
                                ofs: int, st: nat, lpos: nat) {
    && |cuts| < |cells| && cells[|cuts|].Jump? && 0 <= cells[|cuts|].target < |cells|
    && x in b && b[x] == lpos && lpos in b && x + 1 in b && st == lpos / SEC && s < |secs| && st < |secs|
    && Distance(cells, cuts, |cuts|, cells[|cuts|].target)
       == (if lpos > x then b[lpos] + (Base(secs, st) - Base(secs, s)) - b[x + 1] else b[lpos] - ofs - b[x + 1])
    && (lpos > x ==> s <= st)
  }

  lemma DistanceIs(lists: seq<seq<Action>>, a: Asm, b0: map<nat, int>, b: map<nat, int>, cuts: seq<nat>, s: nat, i: nat,
                   ofs: int) returns (st: nat, lpos: nat)
    requires Ready(lists, a, b0) && Words(lists, All(a), Cells(lists, a, b0), cuts, b0, b)
             && SoFar(Cells(lists, a, b0), cuts)
    requires s < |a.trace| && i < |a.trace[s]| && |cuts| == Place(a, s, i) && OffsetOk(a, cuts, s, ofs)
             && Rel(Act(lists, a.trace[s][i]))
    requires a.trace[s][i].slot in b && b[a.trace[s][i].slot] > 0
    ensures DistanceKnown(Cells(lists, a, b0), cuts, a.secs, b, a.trace[s][i].slot, s, ofs, st, lpos)
  {
    hide TracesOk, Flat, ListsOk, TableOk, FixedOk, EventsOk, BelowOk, ItemsHeld, Resolved;
    OffsetAt(lists, a, b0, cuts, s, i, ofs);
    var f, k := All(a), |cuts|;
    assert WordOk(lists, f, Cells(lists, a, b0), cuts, b0, b, k);
    var it;
    st, it := JumpTarget(lists, a, b0, k);
    lpos := b[a.trace[s][i].slot];
    var t := Place(a, st, it);
    assert WordOk(lists, f, Cells(lists, a, b0), cuts, b0, b, t);
    GuessAt(lists, a, b0, s, i);
    GuessAt(lists, a, b0, st, it);
    SecsMatch(lists, a);
    if t > k {
      FlatSlots(lists, a, k, t);
      SectionsOrdered(lists, a, s, i, st, it);
    }
  }

  lemma SecsMatch(lists: seq<seq<Action>>, a: Asm)
    requires TracesOk(lists, a)
    ensures |a.secs| == |a.trace|
  {
  }

  lemma SectionsOrdered(lists: seq<seq<Action>>, a: Asm, s: nat, i: nat, st: nat, it: nat)
    requires TracesOk(lists, a) && s < |a.trace| && i < |a.trace[s]| && st < |a.trace| && it < |a.trace[st]|
             && Place(a, s, i) < Place(a, st, it)
    ensures s <= st
  {
    SectionOrder(a.trace, s, i, st, it);
  }

  // ----- globals that are not defined ------------------------------------------------------------

  /** The open references to the global labels below n hold the label's number, negated. */
  ghost predicate Marked(b0: map<nat, int>, b: map<nat, int>, chain: map<Label, seq<nat>>, n: nat) {
    forall y: nat {:trigger MarkedAt(b0, b, chain, n, y)} :: MarkedAt(b0, b, chain, n, y)
  }

  ghost predicate MarkedAt(b0: map<nat, int>, b: map<nat, int>, chain: map<Label, seq<nat>>, n: nat, y: nat) {
    y in b0 ==>
      && y in b
      && (forall j: nat {:trigger Lg(j) in chain} :: 10 <= j < n && Lg(j) in chain && y in chain[Lg(j)] ==>
          b[y] == -(j as int))
      && ((forall j: nat {:trigger Lg(j) in chain} :: 10 <= j < n && Lg(j) in chain ==> y !in chain[Lg(j)]) ==>
          b[y] == b0[y])
  }

  /** One more global label. */
  lemma MarkNext(t: Table, b: map<nat, int>, n: nat, b2: map<nat, int>)
    requires TableOk(t) && n >= 10 && Lg(n) in t.chain && Marked(t.b, b, t.chain, n)
             && Collapsed(t.(b := b), Lg(n), -(n as int), b2)
    ensures Marked(t.b, b2, t.chain, n + 1)
  {
    hide LabelOk, RefOk, Resolve;
    var n2 := n + 1;
    forall y: nat ensures MarkedAt(t.b, b2, t.chain, n2, y) {
      assert MarkedAt(t.b, b, t.chain, n, y);
      if y in t.b {
        forall j: nat | 10 <= j < n + 1 && Lg(j) in t.chain && y in t.chain[Lg(j)] ensures b2[y] == -(j as int) {
          if j != n && y in t.chain[Lg(n)] {
            ChainsApart(t, Lg(j), Lg(n), y);
          }
        }
      }
    }
  }

  /** Chains of labels not marked yet are as they were. */
  lemma MarkKeeps(t: Table, b: map<nat, int>, n: nat, l: Label)
    requires TableOk(t) && Marked(t.b, b, t.chain, n) && l in t.labels && l in t.chain
             && (l.Lg? ==> l.i >= n || l.i < 10)
    ensures Chained(t.(b := b), l)
  {
    hide LabelOk, RefOk, Resolve;
    OnChain(t, l);
    ChainWords(t, l);
    forall k | 0 <= k < |t.chain[l]| ensures t.chain[l][k] in b && b[t.chain[l][k]] == t.b[t.chain[l][k]] {
      var y := t.chain[l][k];
      assert MarkedAt(t.b, b, t.chain, n, y);
      forall j: nat | 10 <= j < n && Lg(j) in t.chain ensures y !in t.chain[Lg(j)] {
        if y in t.chain[Lg(j)] {
          ChainsApart(t, l, Lg(j), y);
        }
      }
    }
  }

  /** With no local or PC label open, marking the globals resolves every reference. */
  lemma MarkResolves(t: Table, b: map<nat, int>, n: nat)
    requires TableOk(t) && Marked(t.b, b, t.chain, n)
    requires forall l <- t.labels :: if l.Lg? then 0 < l.i < n && (l.i < 10 ==> t.labels[l] <= 0) else t.labels[l] <= 0
    ensures Resolved(t.log, b)
  {
    hide LabelOk, RefOk, Resolve;
    forall i: nat | i < |t.log| && t.log[i].Ref?
      ensures t.log[i].slot in b
              && b[t.log[i].slot] == (match Resolve(t.log, i) case Some(d) => d case None => -Number(t.log[i].l))
      ensures Resolve(t.log, i).None? ==> t.log[i].l.Lg? && t.log[i].l.i >= 10
    {
      MarkRef(t, b, n, i);
    }
  }

  lemma MarkRef(t: Table, b: map<nat, int>, n: nat, i: nat)
    requires TableOk(t) && Marked(t.b, b, t.chain, n) && i < |t.log| && t.log[i].Ref?
    requires forall l <- t.labels :: if l.Lg? then 0 < l.i < n && (l.i < 10 ==> t.labels[l] <= 0) else t.labels[l] <= 0
    ensures t.log[i].slot in b
            && b[t.log[i].slot] == (match Resolve(t.log, i) case Some(d) => d case None => -Number(t.log[i].l))
    ensures Resolve(t.log, i).None? ==> t.log[i].l.Lg? && t.log[i].l.i >= 10
  {
    hide Resolve;
    var e := t.log[i];
    assert RefOk(t, i);
    assert MarkedAt(t.b, b, t.chain, n, e.slot);
    if Resolve(t.log, i).Some? {
      NotOpen(t, i);
    } else {
      ChainWords(t, e.l);
    }
  }

  /** The slot of a bound reference is on no chain. */
  lemma NotOpen(t: Table, i: nat)
    requires TableOk(t) && i < |t.log| && t.log[i].Ref? && Resolve(t.log, i).Some?
    ensures forall l <- t.chain :: t.log[i].slot !in t.chain[l]
  {
    hide LabelOk, RefOk, Resolve;
    assert forall l <- t.chain :: t.log[i].slot in t.chain[l] ==> OpenRef(t, l, t.log[i].slot);
  }

  /** The marks change no word but those of references. */
  lemma MarkFixed(lists: seq<seq<Action>>, a: Asm, b: map<nat, int>, n: nat)
    requires AsmOk(lists, a) && Marked(a.table.b, b, a.table.chain, n)
    ensures forall x {:trigger x in a.fixed} :: x in a.fixed ==> x in b && b[x] == a.fixed[x]
  {
    hide ListsOk, TracesOk, BelowOk, ItemsHeld, LabelOk, RefOk, Resolve;
    forall x | x in a.fixed ensures x in b && b[x] == a.fixed[x] {
      assert MarkedAt(a.table.b, b, a.table.chain, n, x);
      forall j: nat | 10 <= j < n && Lg(j) in a.table.chain ensures x !in a.table.chain[Lg(j)] {
        FixedNotChained(lists, a, Lg(j), x);
      }
    }
  }

  // ----- walking the buffer ---------------------------------------------------------------------

  /** How to go on from item i of a trace that is put to its end. */
  lemma NextItem(lists: seq<seq<Action>>, t: seq<Item>, sec: nat, i: nat)
    requires Trace(lists, t, sec) && i < |t| && Closed(lists, t)
    ensures if Ends(Act(lists, t[i]))
            then (if i + 1 < |t| then t[i + 1].p == 0 && t[i + 1].slot == t[i].slot
                  else EndSlot(lists, t, sec) == t[i].slot)
            else i + 1 < |t| && t[i + 1].start == t[i].start && t[i + 1].p == t[i].p + 1
                 && t[i + 1].slot == t[i].slot + Slots(Act(lists, t[i]))
  {
    if i + 1 < |t| {
      assert After(lists, t, i);
    }
  }

  lemma SumAppend(cuts: seq<nat>, c: nat)
    ensures Sum(cuts + [c], |cuts| + 1) == Sum(cuts, |cuts|) + c
  {
    assert (cuts + [c])[..|cuts|] == cuts;
    SumPrefix(cuts + [c], |cuts|, |cuts|);
  }

  /** A branch whose reference is to no label here does not shrink. */
  lemma NoTarget(lists: seq<seq<Action>>, a: Asm, b0: map<nat, int>, cuts: seq<nat>, k: nat)
    requires k < |All(a)| && k <= |cuts| && Rel(Act(lists, All(a)[k])) && All(a)[k].slot in b0
    requires b0[All(a)[k].slot] < 0 || ShrinkOf(OpBefore(lists, All(a), k)) == 0
    ensures CutOf(Cells(lists, a, b0), cuts, k) == 0
  {
    FindLabelIs(lists, All(a), b0[All(a)[k].slot], 0);
  }

  /** A reference is to a label position or to a global's mark. */
  lemma LinkValue(lists: seq<seq<Action>>, a: Asm, b0: map<nat, int>, k: nat)
    requires Ready(lists, a, b0) && k < |All(a)| && Refers(Act(lists, All(a)[k]))
    ensures All(a)[k].slot in b0 && b0[All(a)[k].slot] != 0
    ensures b0[All(a)[k].slot] < 0 ==>
              NameOf(Act(lists, All(a)[k]), All(a)[k].arg) == Lg(-b0[All(a)[k].slot]) && b0[All(a)[k].slot] <= -10
  {
    hide ListsOk, TracesOk, BelowOk, Resolve, FixedOk, EventsOk, LabelOk, RefOk;
    var act := Act(lists, All(a)[k]);
    var s0, i0 := FlatIs(a.trace, |a.trace|, k);
    assert ItemHeld(lists, a, a.trace[s0][i0]);
    var e := Ref(NameOf(act, All(a)[k].arg), All(a)[k].slot, KindOf(act));
    var n :| 0 <= n < |a.table.log| && a.table.log[n] == e;
    if Resolve(a.table.log, n).Some? {
      var j := ResolveMeans(a.table.log, n);
    }
  }
}
