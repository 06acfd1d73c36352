/** Action lists of the DynASM encoder for x86, and the trace that putting them leaves. */
module DasmActions {
  import opened DasmLabels

  /** Immediates of fixed width: signed byte, unsigned byte, word, double word. */
  datatype Width = ImmS | ImmB | ImmW | ImmD

  /** One decoded action. Enter stands for the buffer word with the start of the list. */
  datatype Action =
    | Enter
    | Byte(v: nat)
    | Imm(w: Width)
    | Space(fill: nat)
    | RelLg(n: nat)
    | RelPc
    | ImmLg(n: nat)
    | ImmPc
    | LabelLg(n: nat)
    | LabelPc
    | Align(mask: nat)
    | Section(n: nat)
    | Stop

  function WidthOf(w: Width): nat { match w case ImmS => 1 case ImmB => 1 case ImmW => 2 case ImmD => 4 }

  /** The range checks on immediates. */
  predicate FitsIn(w: Width, n: int) {
    match w
    case ImmS => -128 <= n < 128
    case ImmB => 0 <= n < 256
    case ImmW => 0 <= n < 0x1_0000
    case ImmD => -0x8000_0000 <= n < 0x8000_0000
  }

  predicate Rel(a: Action) { a.RelLg? || a.RelPc? }
  predicate Refers(a: Action) { Rel(a) || a.ImmLg? || a.ImmPc? }
  predicate Labels(a: Action) { a.LabelLg? || a.LabelPc? }
  predicate Ends(a: Action) { a.Section? || a.Stop? }
  predicate NeedsArg(a: Action) { a.Imm? || a.Space? || a.RelPc? || a.ImmPc? || a.LabelPc? }

  /** How many buffer words the action takes. */
  function Slots(a: Action): nat {
    if Rel(a) then 2 else if a.Byte? || Ends(a) then 0 else 1
  }

  /** How many bytes of code it takes at most. */
  function Bytes(a: Action, arg: int): nat {
    match a
    case Byte(_) => 1
    case Imm(w) => WidthOf(w)
    case Space(_) => if arg < 0 then 0 else arg
    case RelLg(_) => 4
    case RelPc => 4
    case ImmLg(_) => 4
    case ImmPc => 4
    case Align(m) => m
    case _ => 0
  }

  /** The label that an action names: numbers from 247 on are forward references to locals. */
  function NameOf(a: Action, arg: int): Label {
    match a
    case RelLg(n) => Lg(if n <= 246 then n else n - 246)
    case ImmLg(n) => Lg(if n <= 246 then n else n - 246)
    case LabelLg(n) => Lg(n)
    case _ => Pc(if arg < 0 then 0 else arg)
  }

  function KindOf(a: Action): Kind {
    if a.RelLg? || a.ImmLg? then if a.n > 246 then Forward else if a.n < 10 then Back else Either
    else Either
  }

  /** What a branch can shrink by, from the opcode byte before its displacement. */
  function ShrinkOf(op: nat): nat { if op == 0xe9 then 3 else if 0x80 <= op < 0x90 then 4 else 0 }

  predicate IsMask(m: nat) { m in {0, 1, 3, 7, 15, 31, 63, 127, 255} }

  /** The assembler's preprocessor makes lists that end with Stop or Section, with an opcode before
      each relative displacement (two bytes 0f 8x for conditional branches). */
  predicate ListOk(l: seq<Action>) {
    && l != [] && Ends(l[|l| - 1])
    && (forall p {:trigger l[p]} :: 0 <= p < |l| ==> ActionOk(l, p))
  }

  predicate ActionOk(l: seq<Action>, p: nat)
    requires p < |l|
  {
    var a := l[p];
    && !a.Enter? && (Ends(a) ==> p == |l| - 1)
    && (a.Byte? ==> a.v < 256) && (a.Space? ==> a.fill < 256) && (a.Align? ==> IsMask(a.mask))
    && (a.RelLg? || a.ImmLg? ==> 0 < a.n < 256) && (a.LabelLg? ==> 0 < a.n <= 246)
    && (Rel(a) ==> p > 0 && l[p - 1].Byte? && (0x80 <= l[p - 1].v < 0x90 ==> p > 1 && l[p - 2] == Byte(0x0f)))
  }

  // ----- traces -----------------------------------------------------------------------------

  /** One action as put: list and place in it (0: Enter), buffer position and offset estimate
      before it, and its argument. */
  datatype Item = Item(start: nat, p: nat, slot: nat, est: nat, arg: int)

  const SEC: nat := 0x100_0000

  function Act(lists: seq<seq<Action>>, it: Item): Action {
    if it.p == 0 then Enter
    else if it.start < |lists| && it.p <= |lists[it.start]| then lists[it.start][it.p - 1]
    else Stop
  }

  ghost predicate ListsOk(lists: seq<seq<Action>>) { forall l <- lists :: ListOk(l) }

  ghost predicate ItemOk(lists: seq<seq<Action>>, it: Item) {
    && it.start < |lists| && it.p <= |lists[it.start]|
    && (Act(lists, it).Space? ==> it.arg >= 0) && (Act(lists, it).Imm? ==> FitsIn(Act(lists, it).w, it.arg))
    && (Act(lists, it).RelPc? || Act(lists, it).ImmPc? || Act(lists, it).LabelPc? ==> it.arg >= 0)
  }

  /** What comes after it: the next action of the list, or another list. */
  ghost predicate Follows(lists: seq<seq<Action>>, it: Item, next: Item) {
    && next.slot == it.slot + Slots(Act(lists, it)) && next.est == it.est + Bytes(Act(lists, it), it.arg)
    && if Ends(Act(lists, it)) then next.p == 0 else next.start == it.start && next.p == it.p + 1
  }

  ghost predicate Trace(lists: seq<seq<Action>>, t: seq<Item>, sec: nat) {
    && (t != [] ==> t[0].p == 0 && t[0].slot == sec * SEC && t[0].est == 0)
    && (forall k {:trigger t[k]} :: 0 <= k < |t| ==> ItemOk(lists, t[k]))
    && (forall k: nat {:trigger After(lists, t, k)} :: k + 1 < |t| ==> After(lists, t, k))
  }

  ghost predicate After(lists: seq<seq<Action>>, t: seq<Item>, k: nat) {
    k + 1 < |t| ==> Follows(lists, t[k], t[k + 1])
  }

  /** Buffer position and offset behind the trace. */
  function EndSlot(lists: seq<seq<Action>>, t: seq<Item>, sec: nat): nat {
    if t == [] then sec * SEC else t[|t| - 1].slot + Slots(Act(lists, t[|t| - 1]))
  }

  function EndEst(lists: seq<seq<Action>>, t: seq<Item>): nat {
    if t == [] then 0 else t[|t| - 1].est + Bytes(Act(lists, t[|t| - 1]), t[|t| - 1].arg)
  }

  /** The last list is put to its end. */
  predicate Closed(lists: seq<seq<Action>>, t: seq<Item>) { t == [] || Ends(Act(lists, t[|t| - 1])) }

  lemma {:induction false} SlotsGrow(lists: seq<seq<Action>>, t: seq<Item>, sec: nat, j: nat, k: nat)
    requires Trace(lists, t, sec) && j < k < |t|
    ensures t[j].slot + Slots(Act(lists, t[j])) <= t[k].slot
    decreases k - j
  {
    assert After(lists, t, j);
    if j + 1 < k {
      SlotsGrow(lists, t, sec, j + 1, k);
    }
  }

  /** Every item lies between the start of its section and the end of the trace. */
  lemma SlotRange(lists: seq<seq<Action>>, t: seq<Item>, sec: nat, k: nat)
    requires Trace(lists, t, sec) && k < |t|
    ensures sec * SEC <= t[k].slot && t[k].slot + Slots(Act(lists, t[k])) <= EndSlot(lists, t, sec)
  {
    if k > 0 {
      SlotsGrow(lists, t, sec, 0, k);
    }
    if k < |t| - 1 {
      SlotsGrow(lists, t, sec, k, |t| - 1);
    }
  }

  lemma TraceMore(lists: seq<seq<Action>>, t: seq<Item>, sec: nat, it: Item)
    requires Trace(lists, t, sec) && ItemOk(lists, it)
    requires it.slot == EndSlot(lists, t, sec) && it.est == EndEst(lists, t)
    requires if Closed(lists, t) then it.p == 0 else it.start == t[|t| - 1].start && it.p == t[|t| - 1].p + 1
    ensures Trace(lists, t + [it], sec)
    ensures EndSlot(lists, t + [it], sec) == it.slot + Slots(Act(lists, it))
            && EndEst(lists, t + [it]) == it.est + Bytes(Act(lists, it), it.arg)
  {
    var t2 := t + [it];
    forall k: nat | k + 1 < |t2| ensures After(lists, t2, k) {
      if k + 1 < |t| {
        assert After(lists, t, k);
      }
    }
  }

  /** Before a relative displacement come its opcode bytes. */
  lemma OpcodeBefore(lists: seq<seq<Action>>, t: seq<Item>, sec: nat, k: nat)
    requires ListsOk(lists) && Trace(lists, t, sec) && k < |t| && Rel(Act(lists, t[k]))
    ensures k > 0 && t[k].p > 1 && Act(lists, t[k - 1]).Byte? && Act(lists, t[k - 1]) == lists[t[k].start][t[k].p - 2]
    ensures ShrinkOf(Act(lists, t[k - 1]).v) == 4 ==> k > 1 && Act(lists, t[k - 2]) == Byte(0x0f)
  {
    var it := t[k];
    assert ItemOk(lists, it);
    var l := lists[it.start];
    assert l in lists && ListOk(l) && ActionOk(l, it.p - 1);
    Before(lists, t, sec, k);
    if ShrinkOf(l[it.p - 2].v) == 4 {
      Before(lists, t, sec, k - 1);
    }
  }

  /** The item before one in the middle of a list is the action before it. */
  lemma Before(lists: seq<seq<Action>>, t: seq<Item>, sec: nat, k: nat)
    requires Trace(lists, t, sec) && k < |t| && t[k].p > 0
    ensures k > 0 && t[k - 1].start == t[k].start && t[k - 1].p == t[k].p - 1
  {
    if k > 0 {
      assert After(lists, t, k - 1);
    }
  }

  // ----- what a put makes of its list ----------------------------------------------------------

  function At0(l: seq<Action>, p: nat): Action
    requires p <= |l|
  {
    if p == 0 then Enter else l[p - 1]
  }

  /** The arguments suffice for the actions from p on; space is not negative. */
  predicate ArgsFit(l: seq<Action>, p: nat, args: seq<int>)
    requires p <= |l| + 1
    decreases |l| + 1 - p
  {
    if p == |l| + 1 then true
    else if NeedsArg(At0(l, p)) then args != [] && (At0(l, p).Space? ==> args[0] >= 0) && ArgsFit(l, p + 1, args[1..])
    else ArgsFit(l, p + 1, args)
  }

  function ArgOf(a: Action, args: seq<int>): int { if NeedsArg(a) && args != [] then args[0] else 0 }

  function RestOf(a: Action, args: seq<int>): seq<int> { if NeedsArg(a) && args != [] then args[1..] else args }

  /** The items of list start from place p on. */
  function ItemsFrom(lists: seq<seq<Action>>, start: nat, p: nat, slot: nat, est: nat, args: seq<int>): seq<Item>
    requires start < |lists| && p <= |lists[start]| + 1
    decreases |lists[start]| + 1 - p
  {
    if p == |lists[start]| + 1 then []
    else
      var act := At0(lists[start], p);
      var arg := ArgOf(act, args);
      [Item(start, p, slot, est, arg)]
          + ItemsFrom(lists, start, p + 1, slot + Slots(act), est + Bytes(act, arg), RestOf(act, args))
  }

  function EventsOf(lists: seq<seq<Action>>, items: seq<Item>): seq<Event> {
    if items == [] then [] else EventsOf(lists, items[..|items| - 1]) + Events(lists, items[|items| - 1])
  }

  function Events(lists: seq<seq<Action>>, it: Item): seq<Event> {
    var act := Act(lists, it);
    if Refers(act) then [Ref(NameOf(act, it.arg), it.slot, KindOf(act))]
    else if Labels(act) then [Def(NameOf(act, it.arg), it.slot)]
    else []
  }
}
