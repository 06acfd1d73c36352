/** The sections one after another, as dasm_link lays them out. */
module DasmFlat {
  import opened DasmShrink
  import opened DasmActions
  import opened DasmAsm

  /** The items of the first n sections. */
  function Flat(trace: seq<seq<Item>>, n: nat): seq<Item>
    requires n <= |trace|
  {
    if n == 0 then [] else Flat(trace, n - 1) + trace[n - 1]
  }

  /** The estimated size of the first n sections. */
  function Base(secs: seq<Sec>, n: nat): nat
    requires n <= |secs|
  {
    if n == 0 then 0 else Base(secs, n - 1) + secs[n - 1].ofs
  }

  lemma {:induction false} FlatAt(trace: seq<seq<Item>>, n: nat, s: nat, i: nat)
    requires s < n <= |trace| && i < |trace[s]|
    ensures |Flat(trace, s)| + i < |Flat(trace, n)| && Flat(trace, n)[|Flat(trace, s)| + i] == trace[s][i]
    ensures |Flat(trace, s + 1)| == |Flat(trace, s)| + |trace[s]|
  {
    if s < n - 1 {
      FlatAt(trace, n - 1, s, i);
    }
  }

  lemma {:induction false} FlatGrows(trace: seq<seq<Item>>, m: nat, n: nat)
    requires m <= n <= |trace|
    ensures |Flat(trace, m)| <= |Flat(trace, n)| && Flat(trace, n)[..|Flat(trace, m)|] == Flat(trace, m)
  {
    if m < n {
      FlatGrows(trace, m, n - 1);
    }
  }

  /** Every flat item is one of some section. */
  lemma {:induction false} FlatIs(trace: seq<seq<Item>>, n: nat, k: nat) returns (s: nat, i: nat)
    requires n <= |trace| && k < |Flat(trace, n)|
    ensures s < n && i < |trace[s]| && k == |Flat(trace, s)| + i && Flat(trace, n)[k] == trace[s][i]
  {
    if k < |Flat(trace, n - 1)| {
      s, i := FlatIs(trace, n - 1, k);
    } else {
      s, i := n - 1, k - |Flat(trace, n - 1)|;
    }
  }

  /** Positions grow along the flat items. */
  lemma FlatSlots(lists: seq<seq<Action>>, a: Asm, j: nat, k: nat)
    requires TracesOk(lists, a) && j < k < |Flat(a.trace, |a.trace|)|
    ensures Flat(a.trace, |a.trace|)[j].slot
            + Slots(Act(lists, Flat(a.trace, |a.trace|)[j])) <= Flat(a.trace, |a.trace|)[k].slot
  {
    hide TracesOk, Flat;
    var s, i := FlatIs(a.trace, |a.trace|, j);
    var s2, i2 := FlatIs(a.trace, |a.trace|, k);
    SectionOrder(a.trace, s, i, s2, i2);
    SlotOrder(lists, a, s, i, s2, i2);
  }

  lemma SectionOrder(trace: seq<seq<Item>>, s: nat, i: nat, s2: nat, i2: nat)
    requires s < |trace| && i < |trace[s]| && s2 < |trace| && i2 < |trace[s2]|
             && |Flat(trace, s)| + i < |Flat(trace, s2)| + i2
    ensures s < s2 || (s == s2 && i < i2)
  {
    if s2 < s {
      FlatGrows(trace, s2 + 1, s);
      FlatAt(trace, |trace|, s2, i2);
    }
  }

  lemma SlotOrder(lists: seq<seq<Action>>, a: Asm, s: nat, i: nat, s2: nat, i2: nat)
    requires TracesOk(lists, a) && s < |a.trace| && i < |a.trace[s]| && s2 < |a.trace| && i2 < |a.trace[s2]|
    requires s < s2 || (s == s2 && i < i2)
    ensures a.trace[s][i].slot + Slots(Act(lists, a.trace[s][i])) <= a.trace[s2][i2].slot
  {
    hide Act, Slots, Trace;
    assert SecOk(lists, a, s) && SecOk(lists, a, s2);
    if s == s2 {
      SlotsGrow(lists, a.trace[s], s, i, i2);
    } else {
      SlotRange(lists, a.trace[s], s, i);
      SlotRange(lists, a.trace[s2], s2, i2);
      assert (s + 1) * SEC <= s2 * SEC;
    }
  }

  // ----- the cells of the layout ------------------------------------------------------------

  /** The index of the label at position x, from k on, or -1. */
  function FindLabel(lists: seq<seq<Action>>, f: seq<Item>, x: int, k: nat): int
    decreases |f| - k
  {
    if k >= |f| then -1
    else if Labels(Act(lists, f[k])) && f[k].slot == x then k
    else FindLabel(lists, f, x, k + 1)
  }

  lemma {:induction false} FindLabelIs(lists: seq<seq<Action>>, f: seq<Item>, x: int, k: nat)
    ensures var t := FindLabel(lists, f, x, k); t == -1 || (k <= t < |f| && Labels(Act(lists, f[t])) && f[t].slot == x)
    decreases |f| - k
  {
    if k < |f| {
      FindLabelIs(lists, f, x, k + 1);
    }
  }

  lemma {:induction false} FindLabelThere(lists: seq<seq<Action>>, f: seq<Item>, x: int, k: nat, t: nat)
    requires k <= t < |f| && Labels(Act(lists, f[t])) && f[t].slot == x
    requires forall j :: 0 <= j < t && Labels(Act(lists, f[j])) ==> f[j].slot != x
    ensures FindLabel(lists, f, x, k) == t
    decreases |f| - k
  {
    if k < t {
      FindLabelThere(lists, f, x, k + 1, t);
    }
  }

  /** The opcode byte before item k. */
  function OpBefore(lists: seq<seq<Action>>, f: seq<Item>, k: nat): nat
    requires k < |f|
  {
    if k > 0 && Act(lists, f[k - 1]).Byte? then Act(lists, f[k - 1]).v else 0
  }

  /** Item k in the layout; b holds what references are bound to. */
  function CellOf(lists: seq<seq<Action>>, f: seq<Item>, b: map<nat, int>, k: nat): Cell
    requires k < |f|
  {
    var act := Act(lists, f[k]);
    if Rel(act)
        then Jump(ShrinkOf(OpBefore(lists, f, k)), if f[k].slot in b then FindLabel(lists, f, b[f[k].slot], 0) else -1)
    else if Labels(act) then Mark
    else if act.Align? then Pad(act.mask)
    else Plain(Bytes(act, f[k].arg))
  }

  function CellsOf(lists: seq<seq<Action>>, f: seq<Item>, b: map<nat, int>): (r: seq<Cell>)
    ensures |r| == |f|
    ensures forall k: nat {:trigger r[k]} :: k < |f| ==> r[k] == CellOf(lists, f, b, k)
  {
    seq(|f|, k requires 0 <= k < |f| => CellOf(lists, f, b, k))
  }

  lemma CellsWellFormed(lists: seq<seq<Action>>, f: seq<Item>, b: map<nat, int>)
    ensures WellFormed(CellsOf(lists, f, b))
  {
    var cells := CellsOf(lists, f, b);
    forall k: nat | k < |cells| && cells[k].Jump?
      ensures cells[k].shrink <= 4 && (0 <= cells[k].target < |cells| ==> cells[cells[k].target].Mark?)
    {
      var x := if f[k].slot in b then b[f[k].slot] else -1;
      FindLabelIs(lists, f, x, 0);
    }
  }

  /** An item takes at most what its cell does. */
  lemma MostIs(lists: seq<seq<Action>>, f: seq<Item>, b: map<nat, int>, k: nat)
    requires k < |f|
    ensures Most(CellOf(lists, f, b, k)) == Bytes(Act(lists, f[k]), f[k].arg)
  {
  }

  /** The estimate for a flat item is its own plus the sections before. */
  lemma {:induction false} GuessAt(lists: seq<seq<Action>>, a: Asm, b: map<nat, int>, s: nat, i: nat)
    requires TracesOk(lists, a) && s < |a.trace| && i <= |a.trace[s]|
    ensures |Flat(a.trace, s)| + i <= |Flat(a.trace, |a.trace|)|
    ensures Guess(CellsOf(lists, Flat(a.trace, |a.trace|), b), |Flat(a.trace, s)| + i)
         == Base(a.secs, s) + if i < |a.trace[s]| then a.trace[s][i].est else EndEst(lists, a.trace[s])
    decreases s, i
  {
    hide TracesOk, CellsOf, Trace, Act;
    FlatGrows(a.trace, s + 1, |a.trace|);
    SecIs(lists, a, s);
    if i == 0 {
      if s > 0 {
        GuessAt(lists, a, b, s - 1, |a.trace[s - 1]|);
        SecIs(lists, a, s - 1);
      }
    } else {
      GuessAt(lists, a, b, s, i - 1);
      GuessStep(lists, a, b, s, i);
    }
  }

  lemma SecIs(lists: seq<seq<Action>>, a: Asm, s: nat)
    requires TracesOk(lists, a) && s < |a.trace|
    ensures |a.secs| == |a.trace| && a.secs[s].ofs == EndEst(lists, a.trace[s])
            && a.secs[s].pos == EndSlot(lists, a.trace[s], s)
    ensures a.trace[s] != [] ==> a.trace[s][0].est == 0 && a.trace[s][0].slot == s * SEC
    ensures Trace(lists, a.trace[s], s)
  {
    assert SecOk(lists, a, s);
  }

  lemma GuessStep(lists: seq<seq<Action>>, a: Asm, b: map<nat, int>, s: nat, i: nat)
    requires TracesOk(lists, a) && s < |a.trace| && 0 < i <= |a.trace[s]|
             && |Flat(a.trace, s)| + i <= |Flat(a.trace, |a.trace|)|
    ensures var cells, n := CellsOf(lists, Flat(a.trace, |a.trace|), b), |Flat(a.trace, s)| + i;
            Guess(cells, n) - Guess(cells, n - 1)
            == (if i < |a.trace[s]| then a.trace[s][i].est else EndEst(lists, a.trace[s])) - a.trace[s][i - 1].est
  {
    hide TracesOk, Flat, CellOf, Act, Bytes;
    SecIs(lists, a, s);
    var f := Flat(a.trace, |a.trace|);
    FlatAt(a.trace, |a.trace|, s, i - 1);
    MostIs(lists, f, b, |Flat(a.trace, s)| + i - 1);
    if i < |a.trace[s]| {
      assert After(lists, a.trace[s], i - 1);
    }
  }
}
