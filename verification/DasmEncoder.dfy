/** The DynASM encoder: put, check, link and encode. */
module DasmEncoder {
  import opened DasmLabels
  import opened DasmShrink
  import opened DasmActions
  import opened DasmHistory
  import opened DasmAsm
  import opened DasmFlat
  import opened DasmLink
  import opened DasmEmit

  /** Status codes, without the action list offset that is or'ed in. */
  datatype Status = Ok | RangeI | RangeSec | RangeLg | RangePc | UndefL | UndefPc | MatchSec | Phase

  /** Locals and globals below nlg, PC labels below npc. */
  function LabelsBelow(nlg: nat, npc: nat): (r: set<Label>)
    ensures forall l :: l in r <==> if l.Lg? then 0 < l.i < nlg else l.i < npc
  {
    if nlg > 1 then LabelsBelow(nlg - 1, npc) + {Lg(nlg - 1)}
    else if npc > 0 then LabelsBelow(nlg, npc - 1) + {Pc(npc - 1)}
    else {}
  }

  lemma LabelBytes(lists: seq<seq<Action>>, it: Item)
    requires Labels(Act(lists, it))
    ensures Slots(Act(lists, it)) == 1 && Bytes(Act(lists, it), it.arg) == 0
  {
  }

  lemma NothingPut(lists: seq<seq<Action>>, a: Asm)
    requires ListsOk(lists) && a.table.log == [] && a.fixed == map[] && a.links == {}
             && a.table.labels.Keys == a.table.chain.Keys
    requires forall l <- a.table.labels :: a.table.labels[l] == 0 && a.table.chain[l] == []
    requires |a.trace| == |a.secs| && forall s: nat :: s < |a.trace| ==>
               a.trace[s] == [] && a.secs[s] == Sec(s * SEC, 0)
    ensures AsmOk(lists, a)
  {
    forall s: nat | s < |a.trace| ensures SecOk(lists, a, s) {
      assert a.trace[s] == [] && s * SEC < (s + 1) * SEC;
    }
  }

  /** The label is defined, and no reference waits for a definition to come. */
  ghost predicate Settled(log: seq<Event>, l: Label) {
    && LastDef(log, l).Some?
    && forall i: nat {:trigger log[i]} :: i < |log| && log[i].Ref? && log[i].l == l ==> Resolve(log, i).Some?
  }

  /** Whether an action can be put after these events: an immediate has to be in its range, labels and
      sections have to be among those there are, and a label that is named backwards has to be there. */
  ghost function Verdict(lists: seq<seq<Action>>, log: seq<Event>, nlg: nat, npc: nat, nsec: nat, it: Item): Status {
    match Act(lists, it)
    case Imm(w) => if FitsIn(w, it.arg) then Ok else RangeI
    case RelLg(n) => LgVerdict(log, nlg, n)
    case ImmLg(n) => LgVerdict(log, nlg, n)
    case LabelLg(n) => if n < nlg then Ok else RangeLg
    case RelPc => if 0 <= it.arg < npc then Ok else RangePc
    case ImmPc => if 0 <= it.arg < npc then Ok else RangePc
    case LabelPc => if 0 <= it.arg < npc then Ok else RangePc
    case Section(n) => if n < nsec then Ok else RangeSec
    case _ => Ok
  }

  ghost function LgVerdict(log: seq<Event>, nlg: nat, n: nat): Status {
    if n < 10 then if Settled(log, Lg(n)) then Ok else RangeLg
    else if n <= 246 && n >= nlg then RangeLg
    else Ok
  }

  /** The outcome of putting the items from j on: the first refusal, if there is one. */
  ghost function Outcome(lists: seq<seq<Action>>, log: seq<Event>, nlg: nat, npc: nat, nsec: nat, items: seq<Item>)
    : Status
    decreases |items|
  {
    if items == [] then Ok
    else if !Verdict(lists, log, nlg, npc, nsec, items[0]).Ok? then Verdict(lists, log, nlg, npc, nsec, items[0])
    else Outcome(lists, log + Events(lists, items[0]), nlg, npc, nsec, items[1..])
  }

  /** The label arrays say just that. */
  lemma SettledIs(t: Table, l: Label)
    requires TableOk(t) && l in t.labels && Local(l)
    ensures t.labels[l] < 0 <==> Settled(t.log, l)
  {
    hide Resolve, LastDef;
    assert LabelOk(t, l) && Chained(t, l);
    if t.labels[l] > 0 {
      assert t.chain[l][0] in t.chain[l];
      assert OpenRef(t, l, t.chain[l][0]);
    }
    if t.labels[l] < 0 {
      forall i: nat | i < |t.log| && t.log[i].Ref? && t.log[i].l == l ensures Resolve(t.log, i).Some? {
        assert RefOk(t, i);
      }
    }
  }

  /** What the label arrays say about putting an action, as the tests of a put have it. */
  lemma VerdictIs(lists: seq<seq<Action>>, t: Table, nlg: nat, npc: nat, nsec: nat, it: Item)
    requires TableOk(t) && ListsOk(lists) && ItemOk(lists, it) && nlg >= 10
    requires forall l {:trigger l in t.labels} :: l in t.labels <==> if l.Lg? then 0 < l.i < nlg else l.i < npc
    ensures var act, l := Act(lists, it), NameOf(Act(lists, it), it.arg);
            && (Refers(act) ==>
                  Verdict(lists, t.log, nlg, npc, nsec, it)
                  == if l !in t.labels then if l.Pc? then RangePc else RangeLg
                     else if KindOf(act).Back? && t.labels[l] >= 0 then RangeLg else Ok)
            && (Labels(act) ==>
                  Verdict(lists, t.log, nlg, npc, nsec, it)
                  == if l !in t.labels then if l.Pc? then RangePc else RangeLg else Ok)
  {
    hide TableOk, Settled, ListsOk;
    var act, l := Act(lists, it), NameOf(Act(lists, it), it.arg);
    if Refers(act) || Labels(act) {
      ActionOf(lists, it);
    }
    if l in t.labels && Local(l) {
      SettledIs(t, l);
    }
  }

  lemma VerdictAt(lists: seq<seq<Action>>, a: Asm, nlg: nat, npc: nat, nsec: nat, c: nat, it: Item)
    requires AsmOk(lists, a) && CanPut(lists, a, c, it) && nlg >= 10
    requires forall l {:trigger l in a.table.labels} ::
               l in a.table.labels <==> if l.Lg? then 0 < l.i < nlg else l.i < npc
    ensures var act, l := Act(lists, it), NameOf(Act(lists, it), it.arg);
            && (Refers(act) ==>
                  Verdict(lists, a.table.log, nlg, npc, nsec, it)
                  == if l !in a.table.labels then if l.Pc? then RangePc else RangeLg
                     else if KindOf(act).Back? && a.table.labels[l] >= 0 then RangeLg else Ok)
            && (Labels(act) ==>
                  Verdict(lists, a.table.log, nlg, npc, nsec, it)
                  == if l !in a.table.labels then if l.Pc? then RangePc else RangeLg else Ok)
  {
    VerdictIs(lists, a.table, nlg, npc, nsec, it);
  }

  lemma OutcomeStep(lists: seq<seq<Action>>, log: seq<Event>, nlg: nat, npc: nat, nsec: nat, it: Item, args: seq<int>)
    requires it.start < |lists| && it.p <= |lists[it.start]| && it.arg == ArgOf(At0(lists[it.start], it.p), args)
    ensures var act := At0(lists[it.start], it.p);
            var rest := ItemsFrom(lists, it.start, it.p + 1, it.slot + Slots(act), it.est + Bytes(act, it.arg),
                                  RestOf(act, args));
            Outcome(lists, log, nlg, npc, nsec, ItemsFrom(lists, it.start, it.p, it.slot, it.est, args))
            == if Verdict(lists, log, nlg, npc, nsec, it).Ok?
               then Outcome(lists, log + Events(lists, it), nlg, npc, nsec, rest)
               else Verdict(lists, log, nlg, npc, nsec, it)
  {
    hide Verdict, Events;
    var all := ItemsFrom(lists, it.start, it.p, it.slot, it.est, args);
    var act := At0(lists[it.start], it.p);
    assert all[0] == it;
    assert all[1..] == ItemsFrom(lists, it.start, it.p + 1, it.slot + Slots(act), it.est + Bytes(act, it.arg),
                                 RestOf(act, args));
  }

  /** out is the code for what the history tells of, laid out as y says. */
  ghost predicate Encoded(lists: seq<seq<Action>>, a: Asm, y: Layout, out: seq<nat>, h: seq<Step>) {
    && Ready(lists, a, y.b0) && Decided(Cells(lists, a, y.b0), y.cuts)
    && y == Layout(All(a), Cells(lists, a, y.b0), y.cuts, y.b0, y.base, y.globals)
    && AllPlaced(lists, y, out, |All(a)|) && |out| < 0x8000_0000 && Told(lists, a.trace, a.table.log, h)
  }

  class Encoder {
    const lists: seq<seq<Action>>
    const nlg: nat
    const npc: nat
    var labels: map<Label, int>
    var b: map<nat, int>
    var secs: seq<Sec>
    var cur: nat
    var status: Status
    ghost var log: seq<Event>
    ghost var chain: map<Label, seq<nat>>
    ghost var fixed: map<nat, int>
    ghost var links: set<nat>
    ghost var trace: seq<seq<Item>>
    /** All the actions put and all the checks between steps, in order. */
    ghost var history: seq<Step>
    var codesize: int
    /** After link: the state it started from, the references, and what each item saves. */
    ghost var put: Asm
    ghost var bound: map<nat, int>
    ghost var cuts: seq<nat>

    /** dasm_init, dasm_setupglobal, dasm_growpc and dasm_setup. */
    constructor (lists: seq<seq<Action>>, maxsection: nat, maxgl: nat, maxpc: nat)
      requires maxsection > 0 && ListsOk(lists)
      ensures Valid() && status.Ok? && log == [] && |trace| == maxsection && (forall t <- trace :: t == [])
              && this.lists == lists && history == []
    {
      this.lists := lists;
      nlg, npc := 10 + maxgl, maxpc;
      var keys := LabelsBelow(10 + maxgl, maxpc);
      labels := map l | l in keys :: 0;
      b := map[];
      secs := seq(maxsection, s requires 0 <= s < maxsection => Sec(s * SEC, 0));
      cur, status := 0, Ok;
      log, fixed, links, history := [], map[], {}, [];
      trace := seq(maxsection, _ => []);
      chain := map l | l in keys :: [];
      new;
      NothingPut(lists, State());
    }

    ghost function State(): Asm
      reads this
    {
      Asm(Table(labels, b, log, chain), fixed, links, trace, secs)
    }

    /** The state in the middle of a put, with the section's position and offset in local variables. */
    ghost function Now(c: nat, pos: nat, ofs: nat): Asm
      reads this
      requires c < |secs|
    {
      Asm(Table(labels, b, log, chain), fixed, links, trace, secs[c := Sec(pos, ofs)])
    }

    /** The label arrays: locals and globals below nlg, PC labels below npc. */
    ghost predicate Domain()
      reads this
    {
      10 <= nlg && forall l {:trigger l in labels} :: l in labels <==> if l.Lg? then 0 < l.i < nlg else l.i < npc
    }

    ghost predicate Valid()
      reads this
    {
      && AsmOk(lists, State()) && cur < |secs| && Domain() && Told(lists, trace, log, history)
      && forall s: nat {:trigger trace[s]} :: s < |trace| ==> Closed(lists, trace[s])
    }

    /** A byte, an immediate, space, alignment, the entry of a list, or its end. */
    method PutPlain(c: nat, pos: nat, ofs: nat, it: Item, act: Action) returns (pos2: nat, ofs2: nat)
      requires Putting(c, pos, ofs, it) && act == Act(lists, it) && !Refers(act) && !Labels(act)
      modifies this`b, this`fixed, this`trace, this`links
      ensures AsmOk(lists, Now(c, pos2, ofs2)) && trace == old(trace)[c := old(trace)[c] + [it]]
      ensures pos2 == pos + Slots(act) && ofs2 == ofs + Bytes(act, it.arg)
    {
      hide AsmOk, CanPut;
      PlaceOf(lists, Now(c, pos, ofs), c, it);
      ghost var a := Now(c, pos, ofs);
      if act.Enter? {
        b := b[pos := it.start];
      } else if act.Imm? || act.Space? {
        b := b[pos := it.arg];
      } else if act.Align? {
        b := b[pos := ofs + act.mask];
      }
      assert b == a.table.b + Content(lists, it);
      pos2 := pos + Slots(act);
      ofs2 := ofs + Bytes(act, it.arg);
      hide Slots, Bytes, Content, Act;
      PutPlainOk(lists, a, c, it);
      Record(c, it, a, a.table.(b := b), pos2, ofs2);
    }

    /** A reference to a label. Errors: a label out of range, or a backward reference to a local
        label that is not defined or has open forward references. */
    method PutRef(c: nat, pos: nat, ofs: nat, it: Item, act: Action) returns (pos2: nat, ofs2: nat)
      requires Putting(c, pos, ofs, it) && act == Act(lists, it) && Refers(act) && pos > 0 && status.Ok?
      modifies this`b, this`fixed, this`trace, this`links, this`labels, this`chain, this`log, this`status
      ensures status.Ok? ==> AsmOk(lists, Now(c, pos2, ofs2)) && trace == old(trace)[c := old(trace)[c] + [it]]
      ensures status.Ok? ==>
                pos2 == pos + Slots(act) && ofs2 == ofs + Bytes(act, it.arg) && log == old(log) + Events(lists, it)
      ensures labels.Keys == old(labels.Keys)
      ensures var l, kind := NameOf(act, it.arg), KindOf(act);
              if l !in old(labels) then status == (if l.Pc? then RangePc else RangeLg)
              else if kind.Back? && old(labels)[l] >= 0 then status == RangeLg
              else status.Ok?
    {
      hide AsmOk, CanPut, TableOk;
      ghost var a := Now(c, pos, ofs);
      PlaceOf(lists, a, c, it);
      RefNew(lists, a, c, it);
      var l := NameOf(act, it.arg);
      var kind := KindOf(act);
      pos2, ofs2 := pos, ofs;
      if l !in labels {
        status := if l.Pc? then RangePc else RangeLg;
        return;
      }
      if kind.Back? && labels[l] >= 0 {
        status := RangeLg;
        return;
      }
      pos2, ofs2 := PutRefTo(c, pos, ofs, it, act, l, kind);
    }

    method PutRefTo(c: nat, pos: nat, ofs: nat, it: Item, act: Action, l: Label, kind: Kind)
        returns (pos2: nat, ofs2: nat)
      requires Putting(c, pos, ofs, it) && act == Act(lists, it) && Refers(act) && pos > 0
      requires l == NameOf(act, it.arg) && kind == KindOf(act) && l in labels && l in chain
               && (kind.Back? ==> labels[l] < 0)
      modifies this`b, this`fixed, this`trace, this`links, this`labels, this`chain, this`log
      ensures AsmOk(lists, Now(c, pos2, ofs2)) && trace == old(trace)[c := old(trace)[c] + [it]]
      ensures pos2 == pos + Slots(act) && ofs2 == ofs + Bytes(act, it.arg) && log == old(log) + Events(lists, it)
      ensures labels.Keys == old(labels.Keys)
    {
      hide AsmOk, CanPut, TableOk, Attached;
      ghost var a := Now(c, pos, ofs);
      PlaceOf(lists, a, c, it);
      RefNew(lists, a, c, it);
      ghost var table1 := Attached(a.table, l, pos, kind);
      AttachOk(a.table, l, pos, kind);
      Attach(l, pos, kind);
      ofs2 := ofs + 4;
      pos2 := pos + 1;
      if Rel(act) {
        b := b[pos2 := ofs2];
        pos2 := pos2 + 1;
      }
      assert b == table1.b + Content(lists, it);
      assert pos2 == pos + Slots(act) && ofs2 == ofs + Bytes(act, it.arg);
      assert Events(lists, it) == [Ref(l, pos, kind)];
      hide Content, Slots, Bytes, Act, Events, NameOf, KindOf;
      PutRefOk(lists, a, c, it, table1);
      Record(c, it, a, table1.(b := b), pos2, ofs2);
    }

    /** Notes the action in the ghost state, once labels and buffer are up to date. */
    ghost method Record(c: nat, it: Item, a: Asm, table: Table, pos2: nat, ofs2: nat)
      requires c < |secs| == |trace| && a.trace == trace && a.fixed == fixed && a.links == links
               && a.secs == secs[c := Sec(it.slot, it.est)]
      requires Table(labels, b, log, chain) == table && AsmOk(lists, With(lists, a, c, it, table))
      requires pos2 == it.slot + Slots(Act(lists, it)) && ofs2 == it.est + Bytes(Act(lists, it), it.arg)
      modifies this`fixed, this`trace, this`links
      ensures AsmOk(lists, Now(c, pos2, ofs2)) && trace == old(trace)[c := old(trace)[c] + [it]]
    {
      hide AsmOk, Content, Slots, Bytes, Act;
      fixed := fixed + Content(lists, it);
      if Refers(Act(lists, it)) {
        links := links + {it.slot};
      }
      trace := trace[c := trace[c] + [it]];
      assert Now(c, pos2, ofs2) == With(lists, a, c, it, table);
    }

    /** Points the slot to the label if it is defined, or else links it to the label's chain. A
        forward reference starts a new chain when there is a definition. */
    method Attach(l: Label, pos: nat, kind: Kind)
      requires l in labels && l in chain
      modifies this`b, this`labels, this`chain, this`log
      ensures Table(labels, b, log, chain) == Attached(old(Table(labels, b, log, chain)), l, pos, kind)
      ensures labels.Keys == old(labels.Keys)
    {
      var n := labels[l];
      if n < 0 && !kind.Forward? {
        b := b[pos := -n];
      } else {
        if n < 0 {
          n := 0;
        }
        b := b[pos := n];
        labels := labels[l := pos];
        chain := chain[l := [pos] + chain[l]];
      }
      log := log + [Ref(l, pos, kind)];
    }

    /** A label: its open references get its position. */
    method PutLabel(c: nat, pos: nat, ofs: nat, it: Item, act: Action) returns (pos2: nat)
      requires Putting(c, pos, ofs, it) && act == Act(lists, it) && Labels(act) && pos > 0 && status.Ok?
      modifies this`b, this`fixed, this`trace, this`links, this`labels, this`chain, this`log, this`status
      ensures status.Ok? ==> AsmOk(lists, Now(c, pos2, ofs)) && trace == old(trace)[c := old(trace)[c] + [it]]
      ensures status.Ok? ==> pos2 == pos + 1 && log == old(log) + Events(lists, it)
      ensures labels.Keys == old(labels.Keys)
      ensures var l := NameOf(act, it.arg);
              if l !in old(labels) then status == (if l.Pc? then RangePc else RangeLg) else status.Ok?
    {
      hide AsmOk, CanPut, TableOk, Collapsed;
      ghost var a := Now(c, pos, ofs);
      PlaceOf(lists, a, c, it);
      var l := NameOf(act, it.arg);
      pos2 := pos;
      if l !in labels {
        status := if l.Pc? then RangePc else RangeLg;
        return;
      }
      pos2 := PutLabelAt(c, pos, ofs, it, act, l);
    }

    method PutLabelAt(c: nat, pos: nat, ofs: nat, it: Item, act: Action, l: Label) returns (pos2: nat)
      requires Putting(c, pos, ofs, it) && act == Act(lists, it) && Labels(act) && pos > 0 && l == NameOf(act, it.arg)
               && l in labels
      modifies this`b, this`fixed, this`trace, this`links, this`labels, this`chain, this`log
      ensures AsmOk(lists, Now(c, pos2, ofs)) && trace == old(trace)[c := old(trace)[c] + [it]]
      ensures pos2 == pos + 1 && log == old(log) + Events(lists, it) && labels.Keys == old(labels.Keys)
    {
      hide AsmOk, CanPut, TableOk, Collapsed;
      ghost var a := Now(c, pos, ofs);
      PlaceOf(lists, a, c, it);
      TableOf(lists, a, l);
      Collapse(l, pos);
      ghost var b2 := b;
      labels := labels[l := -(pos as int)];
      b := b[pos := ofs];
      pos2 := pos + 1;
      log := log + Events(lists, it);
      chain := chain[l := []];
      PutLabelOk(lists, a, c, it, b2);
      assert labels.Keys == old(labels.Keys);
      LabelBytes(lists, it);
      hide Slots, Bytes, Act, NameOf;
      Record(c, it, a, Defined(a.table, l, it.slot, b2[it.slot := it.est]), pos2, ofs);
    }

    /** Walks the chain of l and writes pos to every slot on it: a position, or a global's mark. */
    method Collapse(l: Label, pos: int)
      requires l in labels && l in chain && Chained(Table(labels, b, log, chain), l)
      modifies this`b
      ensures Collapsed(Table(labels, old(b), log, chain), l, pos, b)
    {
      hide PartCollapsed;
      ghost var c, k := chain[l], 0;
      CollapseStart(b, c, pos);
      var n := labels[l];
      while n > 0
        invariant 0 <= k <= |c| && (n > 0 <==> k < |c|) && (n > 0 ==> n == c[k])
        invariant PartCollapsed(old(b), c, k, pos, b)
        decreases |c| - k
      {
        CollapseStep(old(b), c, k, pos, b);
        var pb := n;
        n := b[pb];
        b := b[pb := pos];
        k := k + 1;
      }
      CollapseEnd(old(b), c, pos, b);
    }

    /** One action of a put. */
    method PutAction(c: nat, start: nat, p: nat, pos: nat, ofs: nat, args: seq<int>)
        returns (pos2: nat, ofs2: nat, rest: seq<int>)
      requires c < |secs| == |trace| && AsmOk(lists, Now(c, pos, ofs)) && start < |lists| && p <= |lists[start]|
      requires Continues(lists, trace[c], start, p) && ArgsFit(lists[start], p, args)
      requires pos + 2 < (c + 1) * SEC && (p > 0 ==> pos > 0) && status.Ok? && Domain()
      modifies this`b, this`fixed, this`trace, this`links, this`labels, this`chain, this`log, this`status, this`cur
      ensures status == Verdict(lists, old(log), nlg, npc, |secs|,
                                Item(start, p, pos, ofs, ArgOf(At0(lists[start], p), args)))
      ensures status.Ok? ==> AsmOk(lists, Now(c, pos2, ofs2)) && rest == RestOf(At0(lists[start], p), args)
      ensures status.Ok? ==>
                trace == old(trace)[c := old(trace)[c] + [Item(start, p, pos, ofs, ArgOf(At0(lists[start], p), args))]]
      ensures status.Ok? ==>
                pos2 == pos + Slots(At0(lists[start], p))
                    && ofs2 == ofs + Bytes(At0(lists[start], p), ArgOf(At0(lists[start], p), args))
      ensures status.Ok? ==>
                log == old(log) + Events(lists, Item(start, p, pos, ofs, ArgOf(At0(lists[start], p), args)))
      ensures cur == old(cur) || (cur < |secs| && p == |lists[start]|)
      ensures labels.Keys == old(labels.Keys)
    {
      hide AsmOk, Closed, Continues, CanPut;
      var l := lists[start];
      var act := At0(l, p);
      var n := ArgOf(act, args);
      rest := RestOf(act, args);
      var it := Item(start, p, pos, ofs, n);
      pos2, ofs2 := pos, ofs;
      if act.Imm? && !FitsIn(act.w, n) {
        status := RangeI;
        return;
      }
      if (act.RelPc? || act.ImmPc? || act.LabelPc?) && n < 0 {
        status := RangePc;
        return;
      }
      CanPutNext(lists, Now(c, pos, ofs), c, it, args);
      if Refers(act) || Labels(act) {
        VerdictAt(lists, Now(c, pos, ofs), nlg, npc, |secs|, c, it);
      }
      if act.Section? {
        if act.n >= |secs| {
          status := RangeSec;
          return;
        }
        SectionLast(lists, Now(c, pos, ofs), start, p);
        cur := act.n;
      }
      if Refers(act) {
        pos2, ofs2 := PutRef(c, pos, ofs, it, act);
      } else if Labels(act) {
        pos2 := PutLabel(c, pos, ofs, it, act);
      } else {
        pos2, ofs2 := PutPlain(c, pos, ofs, it, act);
      }
    }

    /** dasm_put: the actions of a list, with their arguments, go to the current section. On an
        error the state is not to be used any more. */
    method Put(start: nat, args: seq<int>)
      requires Valid() && status.Ok? && start < |lists| && ArgsFit(lists[start], 0, args)
      requires secs[cur].pos + 2 * |lists[start]| + 2 < (cur + 1) * SEC
      modifies this
      ensures old(cur) < |old(trace)| && old(cur) < |old(secs)|
      ensures status == Outcome(lists, old(log), nlg, npc, |old(secs)|,
                                ItemsFrom(lists, start, 0, old(secs)[old(cur)].pos, old(secs)[old(cur)].ofs, args))
      ensures status.Ok? ==> Valid()
      ensures status.Ok? ==>
                var items := ItemsFrom(lists, start, 0, old(secs)[old(cur)].pos, old(secs)[old(cur)].ofs, args);
                trace == old(trace)[old(cur) := old(trace)[old(cur)] + items]
                    && log == old(log) + EventsOf(lists, items) && history == old(history) + Dids(items)
    {
      hide AsmOk, CanPut, Closed, ItemsFrom, EventsOf, Events, Slots, Bytes, ArgsFit, Told, Dids, Outcome, Verdict;
      var c := cur;
      var l := lists[start];
      var pos: nat, ofs: nat := secs[c].pos, secs[c].ofs;
      PutBegins(lists, State(), c, start);
      assert secs[c := Sec(pos, ofs)] == secs && trace[c] + [] == trace[c] && log + [] == log;
      assert EventsOf(lists, []) == [] by { NoEvents(lists); }
      var rest := args;
      var p := 0;
      ghost var done: seq<Item> := [];
      while p <= |l|
        invariant 0 <= p <= |l| + 1 && c < |secs| && secs == old(secs) && |trace| == |secs| && status.Ok?
                  && (cur == c || (cur < |secs| && p == |l| + 1))
        invariant AsmOk(lists, Now(c, pos, ofs)) && Continues(lists, trace[c], start, p)
        invariant ArgsFit(l, p, rest) && pos + 2 * (|l| - p) + 2 < (c + 1) * SEC && (p > 0 ==> pos > 0)
        invariant labels.Keys == old(labels.Keys) && history == old(history) && Domain()
        invariant trace == old(trace)[c := old(trace)[c] + done] && log == old(log) + EventsOf(lists, done)
        invariant Outcome(lists, log, nlg, npc, |secs|, ItemsFrom(lists, start, p, pos, ofs, rest))
                  == Outcome(lists, old(log), nlg, npc, |secs|,
                             ItemsFrom(lists, start, 0, old(secs)[c].pos, old(secs)[c].ofs, args))
        invariant done + ItemsFrom(lists, start, p, pos, ofs, rest)
                  == ItemsFrom(lists, start, 0, old(secs)[c].pos, old(secs)[c].ofs, args)
        decreases |l| + 1 - p
      {
        ghost var it := Item(start, p, pos, ofs, ArgOf(At0(l, p), rest));
        ghost var rest0 := rest;
        OutcomeStep(lists, log, nlg, npc, |secs|, it, rest);
        pos, ofs, rest := PutAction(c, start, p, pos, ofs, rest);
        if !status.Ok? {
          return;
        }
        PutStep(lists, it, rest0, done);
        assert (old(trace)[c] + done) + [it] == old(trace)[c] + (done + [it]);
        assert (old(log) + EventsOf(lists, done)) + Events(lists, it)
               == old(log) + (EventsOf(lists, done) + Events(lists, it));
        done := done + [it];
        assert trace == old(trace)[c := old(trace)[c] + done] && log == old(log) + EventsOf(lists, done);
        ContinuesNext(lists, trace[c], start, p);
        p := p + 1;
      }
      PutEnd(lists, start, pos, ofs, rest, done);
      NothingLeft(lists, log, nlg, npc, |secs|, start, pos, ofs, rest);
      ToldMore(lists, old(trace), old(log), history, c, done);
      history := history + Dids(done);
      secs := secs[c := Sec(pos, ofs)];
    }

    /** dasm_checkstep: no local label may be open between isolated steps; they start anew. */
    method CheckStep(secmatch: int)
      requires Valid() && status.Ok?
      modifies this`labels, this`log, this`status, this`history
      ensures status.Ok? ==> Valid() && log == old(log) + [Forget] && (secmatch >= 0 ==> cur == secmatch)
      ensures history == old(history) + [Check]
      ensures status.UndefL? <==> exists i: nat :: 1 <= i < 10 && Lg(i) in old(labels) && old(labels)[Lg(i)] > 0
      ensures status.MatchSec? <==> !status.UndefL? && secmatch >= 0 && cur != secmatch
      ensures status.Ok? || status.UndefL? || status.MatchSec?
    {
      hide AsmOk, Told, Closed;
      var i := 1;
      while i < 10 && status.Ok?
        invariant 1 <= i <= 10 && Domain() && log == old(log) && history == old(history)
                  && (status.Ok? || status.UndefL?)
        invariant status.UndefL? ==> i < 10 && old(labels)[Lg(i)] > 0
        invariant forall l {:trigger l in labels} :: l in labels ==> labels[l] == if l.Lg? && 0 < l.i < i then 0
                    else old(labels)[l]
        invariant forall j: nat {:trigger Lg(j)} :: 0 < j < i ==> old(labels)[Lg(j)] <= 0
        decreases 10 - i, status.Ok?
      {
        if labels[Lg(i)] > 0 {
          status := UndefL;
        } else {
          labels := labels[Lg(i) := 0];
          i := i + 1;
        }
      }
      if status.Ok? && secmatch >= 0 && cur != secmatch {
        status := MatchSec;
      }
      ToldCheck(lists, trace, log, history);
      log, history := log + [Forget], history + [Check];
      if status.Ok? {
        Forgets(lists, old(State()), State());
      }
    }

    /** The first steps of dasm_link: open PC labels are an error, undefined globals are marked. */
    method LinkGlobals() returns (undefined: bool)
      requires Valid() && forall i: nat :: 1 <= i < 10 && Lg(i) in labels ==> labels[Lg(i)] <= 0
      modifies this`b
      ensures undefined <==> exists i: nat :: i < npc && Pc(i) in labels && labels[Pc(i)] > 0
      ensures !undefined ==> Ready(lists, old(State()), b)
      ensures undefined ==> b == old(b)
    {
      hide AsmOk;
      var pc := 0;
      while pc < npc
        invariant 0 <= pc <= npc && forall i: nat {:trigger Pc(i)} :: i < pc ==> labels[Pc(i)] <= 0
      {
        if labels[Pc(pc)] > 0 {
          return true;
        }
        pc := pc + 1;
      }
      undefined := false;
      ghost var t := Table(labels, b, log, chain);
      MarkStart(lists, State());
      var idx := 10;
      while idx < nlg
        invariant 10 <= idx <= nlg && Marked(t.b, b, t.chain, idx)
      {
        KeysOf(lists, old(State()));
        MarkKeeps(t, b, idx, Lg(idx));
        ghost var b1 := b;
        Collapse(Lg(idx), -(idx as int));
        MarkNext(t, b1, idx, b);
        idx := idx + 1;
      }
      MarkEnd(lists, old(State()), b, nlg, npc);
    }

    // ----- pass 2 ------------------------------------------------------------------------

    /** Everything before item i of section s is linked; ofs is the running offset. */
    ghost predicate Linking(s: nat, i: nat, ofs: int)
      reads this
    {
      && Ready(lists, put, bound) && put.trace == trace && put.secs == secs && s < |trace| && i <= |trace[s]|
      && |cuts| == Place(put, s, i)
      && OffsetOk(put, cuts, s, ofs) && SoFar(Cells(lists, put, bound), cuts)
      && Words(lists, All(put), Cells(lists, put, bound), cuts, bound, b)
    }

    /** A relative reference: the branch is shrunk when its label is near enough. */
    method LinkRel(s: nat, ghost i: nat, op: nat, pos: nat, ofs: int) returns (ofs2: int)
      requires Linking(s, i, ofs) && i < |trace[s]| && Rel(Act(lists, trace[s][i])) && pos == trace[s][i].slot
      requires |cuts| < |All(put)| && op == OpBefore(lists, All(put), |cuts|)
      modifies this`b, this`cuts
      ensures Linking(s, i + 1, ofs2)
    {
      hide Ready, Words, SoFar, Cells, All, Flat, CutOf;
      LinkStart(lists, put, bound, b, cuts, s, i, ofs);
      ofs2 := ofs;
      var shrink := ShrinkOf(op);
      if shrink != 0 {
        var lpos := b[pos];
        if lpos < 0 {
          NoTarget(lists, put, bound, cuts, |cuts|);
          shrink := 0;
        } else {
          ghost var st, at := DistanceIs(lists, put, bound, b, cuts, s, i, ofs);
          var lofs := b[lpos];
          if lpos > pos {
            var j := s;
            while j < lpos / SEC
              invariant s <= j <= st && lofs == b[lpos] + Base(secs, j) - Base(secs, s)
            {
              lofs := lofs + secs[j].ofs;
              j := j + 1;
            }
          } else {
            lofs := lofs - ofs;
          }
          lofs := lofs - b[pos + 1];
          JumpCut(lists, put, bound, cuts, lofs);
          if -128 - shrink <= lofs <= 127 {
            ofs2 := ofs - shrink;
          } else {
            shrink := 0;
          }
        }
      } else {
        NoTarget(lists, put, bound, cuts, |cuts|);
      }
      LinkJump(lists, put, bound, b, cuts, s, i, shrink);
      SumAppend(cuts, shrink);
      b := b[pos + 1 := shrink];
      cuts := cuts + [shrink];
    }

    /** One action of the second pass: labels are fixed, alignment gives back what it does not
        need, everything else only moves on in the buffer. */
    method LinkAction(s: nat, ghost i: nat, act: Action, op: nat, pos: nat, ofs: int) returns (pos2: nat, ofs2: int)
      requires Linking(s, i, ofs) && i < |trace[s]| && act == Act(lists, trace[s][i]) && pos == trace[s][i].slot
      requires Rel(act) ==> |cuts| < |All(put)| && op == OpBefore(lists, All(put), |cuts|)
      modifies this`b, this`cuts
      ensures Linking(s, i + 1, ofs2) && pos2 == pos + Slots(act)
    {
      hide Ready, Words, SoFar, Cells, All, Flat, CutOf;
      LinkStart(lists, put, bound, b, cuts, s, i, ofs);
      pos2, ofs2 := pos + Slots(act), ofs;
      if Rel(act) {
        ofs2 := LinkRel(s, i, op, pos, ofs);
      } else if Labels(act) {
        LinkMark(lists, put, bound, b, cuts, s, i, ofs);
        SumAppend(cuts, 0);
        b := b[pos := b[pos] + ofs];
        cuts := cuts + [0];
      } else if act.Align? {
        LinkPad(lists, put, bound, b, cuts, s, i, ofs);
        ghost var c: nat := (b[pos] + ofs) % (act.mask + 1);
        SumAppend(cuts, c);
        ofs2 := ofs - (b[pos] + ofs) % (act.mask + 1);
        cuts := cuts + [c];
      } else {
        LinkPlain(lists, put, bound, b, cuts);
        SumAppend(cuts, 0);
        cuts := cuts + [0];
      }
    }

    /** The buffer of one section. */
    method LinkSection(s: nat, ofs: int) returns (ofs2: int)
      requires Linking(s, 0, ofs)
      modifies this`b, this`cuts
      ensures Linking(s, |trace[s]|, ofs2)
    {
      hide Ready, Words, SoFar, Cells, All, Flat, CutOf, OffsetOk, Place, Trace, Closed, Act;
      SectionFacts(lists, put, bound, s);
      ofs2 := ofs;
      var pos := s * SEC;
      var lastpos := secs[s].pos;
      ghost var i := 0;
      while pos != lastpos
        invariant i <= |trace[s]| && Linking(s, i, ofs2)
        invariant if i < |trace[s]| then pos == trace[s][i].slot && trace[s][i].p == 0 else pos == lastpos
        decreases |trace[s]| - i
      {
        EnterFacts(lists, put, bound, b, cuts, s, i);
        var start := b[pos];
        var l := lists[start];
        ghost var i0 := i;
        pos, ofs2 := LinkAction(s, i, Enter, 0, pos, ofs2);
        NextItem(lists, trace[s], s, i);
        i := i + 1;
        var p := 0;
        while true
          invariant i0 < i < |trace[s]| && Linking(s, i, ofs2) && trace[s][i].start == start && trace[s][i].p == p + 1
                    && p < |l| && pos == trace[s][i].slot
          decreases |trace[s]| - i
        {
          ActFacts(lists, put, bound, cuts, s, i);
          var act := l[p];
          var op := if p > 0 && l[p - 1].Byte? then l[p - 1].v else 0;
          pos, ofs2 := LinkAction(s, i, act, op, pos, ofs2);
          NextItem(lists, trace[s], s, i);
          i := i + 1;
          if Ends(act) {
            break;
          }
          ItemFacts(lists, put, bound, s, i);
          p := p + 1;
        }
      }
      EndFacts(lists, put, bound, s, i, pos);
    }

    /** The code is laid out: every item has its final offset, and the buffer says so. */
    ghost predicate Linked()
      reads this
    {
      && Ready(lists, put, bound) && put.trace == trace && put.secs == secs && put.table.log == log
      && Decided(Cells(lists, put, bound), cuts) && Words(lists, All(put), Cells(lists, put, bound), cuts, bound, b)
      && codesize == At(Cells(lists, put, bound), cuts, |cuts|)
      && Told(lists, put.trace, put.table.log, history)
      && Domain() && put.table.labels == labels && forall i: nat {:trigger Pc(i)} :: i < npc ==> labels[Pc(i)] <= 0
    }

    /** dasm_link. As dasm_checkstep makes sure, no reference to a local label may be open. */
    method Link() returns (result: Status, size: int)
      requires status.Ok? ==> Valid() && forall i: nat :: 1 <= i < 10 && Lg(i) in labels ==> labels[Lg(i)] <= 0
      modifies this`b, this`put, this`bound, this`cuts, this`codesize
      ensures result == if !status.Ok? then status
                else if exists i: nat :: i < npc && Pc(i) in labels && labels[Pc(i)] > 0 then UndefPc else Ok
      ensures result.Ok? ==> Linked() && size == codesize && put == old(State())
    {
      hide Ready, Words, SoFar, Cells, All, Flat, AsmOk, Told, Closed, Decided, At, Resolve, Trace;
      size := 0;
      if !status.Ok? {
        return status, size;
      }
      put := State();
      var undefined := LinkGlobals();
      if undefined {
        return UndefPc, size;
      }
      bound := b;
      cuts := [];
      LinkBegins(lists, put, bound);
      ghost var put0, bound0 := put, bound;
      var ofs := 0;
      var s := 0;
      while s < |secs|
        invariant put == put0 && bound == bound0 && s <= |secs| && |secs| == |trace| && Ready(lists, put, bound)
                  && put.trace == trace && put.secs == secs && |cuts| == Place(put, s, 0)
        invariant SoFar(Cells(lists, put, bound), cuts)
                  && Words(lists, All(put), Cells(lists, put, bound), cuts, bound, b)
        invariant ofs == Base(secs, s) - Sum(cuts, |cuts|)
      {
        ofs := LinkSection(s, ofs);
        NextSection(put, s);
        ofs := ofs + secs[s].ofs;
        s := s + 1;
      }
      LinkEnds(lists, put, bound, cuts);
      codesize := ofs;
      size := ofs;
      result := Ok;
    }

    // ----- pass 3 ------------------------------------------------------------------------

    /** The layout for code that is to run at base. */
    ghost function Lay(base: int, globals: map<nat, int>): Layout
      reads this
    {
      Layout(All(put), Cells(lists, put, bound), cuts, bound, base, globals)
    }

    /** The items before item i of section s have been encoded. */
    ghost predicate Encoding(base: int, globals: map<nat, int>, s: nat, i: nat, out: seq<nat>)
      reads this
    {
      Linked() && s < |trace| && i <= |trace[s]| && AllPlaced(lists, Lay(base, globals), out, Place(put, s, i))
    }

    /** A relative reference: to a global by its address, or to a label here. A short branch
        replaces its opcode. */
    method EncodeRel(base: int, ghost globals: map<nat, int>, g: map<nat, int>, s: nat, ghost i: nat, pos: nat,
                     out: seq<nat>) returns (out2: seq<nat>)
      requires Encoding(base, globals, s, i, out) && GlobalsOk(lists, Lay(base, globals), Place(put, s, i), g)
               && i < |trace[s]| && Rel(Act(lists, trace[s][i])) && pos == trace[s][i].slot
      ensures Encoding(base, globals, s, i + 1, out2)
    {
      hide Ready, Words, Cells, All, Flat, AllPlaced, LayoutOk, Disp, Address, A, Decided, FindLabel, GlobalsOk;
      ghost var y, k := Lay(base, globals), Place(put, s, i);
      ghost var lpos := RelFacts(lists, put, bound, b, cuts, y, s, i, out);
      var n := b[pos];
      var shrink := b[pos + 1];
      if n < 0 {
        var idx: nat := -n;
        ExternSame(lists, put, bound, y, s, i, g);
        var address := if idx in g then g[idx] else 0;
        n := address - (base + |out| + 4);
      } else {
        var pb: nat := n;
        n := b[pb] - (|out| + 4 - shrink);
      }
      if shrink == 0 {
        out2 := out + Little(n, 4);
        EmitMore(lists, y, out, Little(n, 4), k);
      } else if shrink == 4 {
        var op := out[|out| - 1];
        out2 := out[..|out| - 2] + [op - 0x10] + [n % 256];
        EmitShort(lists, y, out, out2, k);
      } else {
        out2 := out[..|out| - 1] + [0xeb] + [n % 256];
        EmitShort(lists, y, out, out2, k);
      }
    }

    /** One action of the third pass. */
    method EncodeAction(base: int, ghost globals: map<nat, int>, g: map<nat, int>, s: nat, ghost i: nat, act: Action,
                        pos: nat, out: seq<nat>)
      returns (pos2: nat, out2: seq<nat>, g2: map<nat, int>)
      requires Encoding(base, globals, s, i, out) && GlobalsOk(lists, Lay(base, globals), Place(put, s, i), g)
      requires i < |trace[s]| && act == Act(lists, trace[s][i]) && pos == trace[s][i].slot
      ensures Encoding(base, globals, s, i + 1, out2) && GlobalsOk(lists, Lay(base, globals), Place(put, s, i + 1), g2)
              && pos2 == pos + Slots(act)
    {
      hide Ready, Words, Cells, All, Flat, AllPlaced, LayoutOk, Disp, Address, A, Decided, FindLabel, GlobalsOk;
      ghost var y, k := Lay(base, globals), Place(put, s, i);
      EncodeFacts(lists, put, bound, b, cuts, y, s, i, out);
      GlobalsMore(lists, y, k, g);
      assert act.LabelLg? && act.n >= 10 ==> GlobalsAfter(lists, y, k, g) == g[act.n := base + b[pos]];
      pos2, out2, g2 := pos + Slots(act), out, g;
      match act
      case Byte(v) =>
        out2 := out + [v];
        EmitMore(lists, y, out, [v], k);
      case Imm(w) =>
        out2 := out + Little(b[pos], WidthOf(w));
        EmitMore(lists, y, out, Little(b[pos], WidthOf(w)), k);
      case Space(fill) =>
        out2 := EncodeSpace(out, b[pos], fill);
        EmitMore(lists, y, out, out2[|out|..], k);
        assert out2 == out + out2[|out|..];
      case RelLg(_) => out2 := EncodeRel(base, globals, g, s, i, pos, out);
      case RelPc => out2 := EncodeRel(base, globals, g, s, i, pos, out);
      case ImmLg(_) => out2 := EncodeImm(base, globals, g, s, i, pos, out);
      case ImmPc => out2 := EncodeImm(base, globals, g, s, i, pos, out);
      case Align(mask) =>
        out2 := EncodeAlign(out, mask, A(y, k + 1));
        EmitMore(lists, y, out, out2[|out|..], k);
        assert out2 == out + out2[|out|..];
      case LabelLg(idx) =>
        if idx >= 10 {
          g2 := g[idx := base + b[pos]];
        }
        EmitNothing(lists, y, out, k);
      case _ => EmitNothing(lists, y, out, k);
    }

    /** Space: n times the fill byte. */
    method EncodeSpace(out: seq<nat>, n0: int, fill: nat) returns (out2: seq<nat>)
      requires n0 >= 0
      ensures |out2| == |out| + n0 && out2[..|out|] == out && forall x :: |out| <= x < |out2| ==> out2[x] == fill
    {
      out2 := out;
      var n := n0;
      while n > 0
        invariant 0 <= n <= n0 && |out2| == |out| + n0 - n && out2[..|out|] == out && forall x ::
                    |out| <= x < |out2| ==> out2[x] == fill
      {
        out2 := out2 + [fill];
        n := n - 1;
      }
    }

    /** Alignment: no-ops up to the next multiple. */
    method EncodeAlign(out: seq<nat>, mask: nat, ghost next: int) returns (out2: seq<nat>)
      requires |out| <= next < |out| + mask + 1 && next % (mask + 1) == 0
      ensures |out2| == next && out2[..|out|] == out && forall x :: |out| <= x < |out2| ==> out2[x] == 0x90
    {
      out2 := out;
      while |out2| % (mask + 1) != 0
        invariant |out| <= |out2| <= next && out2[..|out|] == out && forall x :: |out| <= x < |out2| ==> out2[x] == 0x90
        decreases next - |out2|
      {
        out2 := out2 + [0x90];
      }
      SameMultiple(|out2|, next, mask + 1);
    }

    /** An absolute reference. */
    method EncodeImm(base: int, ghost globals: map<nat, int>, g: map<nat, int>, s: nat, ghost i: nat, pos: nat,
                     out: seq<nat>) returns (out2: seq<nat>)
      requires Encoding(base, globals, s, i, out) && GlobalsOk(lists, Lay(base, globals), Place(put, s, i), g)
      requires i < |trace[s]| && Refers(Act(lists, trace[s][i])) && !Rel(Act(lists, trace[s][i]))
               && pos == trace[s][i].slot
      ensures Encoding(base, globals, s, i + 1, out2)
    {
      hide Ready, Words, Cells, All, Flat, AllPlaced, LayoutOk, Disp, Address, A, Decided, FindLabel, GlobalsOk;
      ghost var y, k := Lay(base, globals), Place(put, s, i);
      ghost var lpos := ImmFacts(lists, put, bound, b, cuts, y, s, i, out);
      var n := b[pos];
      if n < 0 {
        var idx: nat := -n;
        ExternSame(lists, put, bound, y, s, i, g);
        n := if idx in g then g[idx] else 0;
      } else {
        var pb: nat := n;
        n := b[pb] + base;
      }
      out2 := out + Little(n, 4);
      EmitMore(lists, y, out, Little(n, 4), k);
    }

    /** The buffer of one section. */
    method EncodeSection(base: int, ghost globals: map<nat, int>, g: map<nat, int>, s: nat, out: seq<nat>)
        returns (out2: seq<nat>, g2: map<nat, int>)
      requires Encoding(base, globals, s, 0, out) && GlobalsOk(lists, Lay(base, globals), Place(put, s, 0), g)
      ensures Encoding(base, globals, s, |trace[s]|, out2)
              && GlobalsOk(lists, Lay(base, globals), Place(put, s, |trace[s]|), g2)
    {
      hide Ready, Words, Cells, All, Flat, AllPlaced, Decided, GlobalsOk, Place, Trace, Closed, Act;
      SectionFacts(lists, put, bound, s);
      out2, g2 := out, g;
      var pos := s * SEC;
      var lastpos := secs[s].pos;
      ghost var i := 0;
      while pos != lastpos
        invariant i <= |trace[s]| && Encoding(base, globals, s, i, out2)
                  && GlobalsOk(lists, Lay(base, globals), Place(put, s, i), g2)
        invariant if i < |trace[s]| then pos == trace[s][i].slot && trace[s][i].p == 0 else pos == lastpos
        decreases |trace[s]| - i
      {
        EnterWord(lists, put, bound, b, cuts, s, i);
        var start := b[pos];
        var l := lists[start];
        ghost var i0 := i;
        pos, out2, g2 := EncodeAction(base, globals, g2, s, i, Enter, pos, out2);
        NextItem(lists, trace[s], s, i);
        i := i + 1;
        var p := 0;
        while true
          invariant i0 < i < |trace[s]| && Encoding(base, globals, s, i, out2)
                    && GlobalsOk(lists, Lay(base, globals), Place(put, s, i), g2)
          invariant trace[s][i].start == start && trace[s][i].p == p + 1 && p < |l| && pos == trace[s][i].slot
          decreases |trace[s]| - i
        {
          PlaceFacts(lists, put, bound, s, i);
          var act := l[p];
          pos, out2, g2 := EncodeAction(base, globals, g2, s, i, act, pos, out2);
          NextItem(lists, trace[s], s, i);
          i := i + 1;
          if Ends(act) {
            break;
          }
          ItemFacts(lists, put, bound, s, i);
          p := p + 1;
        }
      }
      EndFacts(lists, put, bound, s, i, pos);
    }

    /** dasm_encode, for code at address base. The phases always agree: the code has the size that
        dasm_link announced. */
    method Encode(base: int, globals: map<nat, int>) returns (result: Status, out: seq<nat>, g: map<nat, int>)
      requires Linked()
      ensures result == Ok && |out| == codesize
      ensures AllPlaced(lists, Lay(base, globals), out, |All(put)|)
              && GlobalsOk(lists, Lay(base, globals), |All(put)|, g)
      ensures |out| < 0x8000_0000 ==> Encoded(lists, put, Lay(base, globals), out, history)
    {
      hide Ready, Words, Cells, All, Flat, AllPlaced, Decided, GlobalsOk, Told;
      EncodeBegins(lists, put, bound, cuts, Lay(base, globals));
      out, g := [], globals;
      var s := 0;
      while s < |secs|
        invariant s <= |secs| == |trace| && AllPlaced(lists, Lay(base, globals), out, Place(put, s, 0))
        invariant GlobalsOk(lists, Lay(base, globals), Place(put, s, 0), g)
      {
        out, g := EncodeSection(base, globals, g, s, out);
        NextSection(put, s);
        s := s + 1;
      }
      EncodeEnds(lists, put, bound, cuts, Lay(base, globals), out);
      result := if |out| != codesize then Phase else Ok;
    }

    /** dasm_getpclabel, once linked: the final offset of the label's latest definition, or -2. */
    method GetPcLabel(pc: nat) returns (ofs: int, ghost t: nat)
      requires Linked()
      ensures LastDef(log, Pc(pc)).Some? && pc < npc ==>
                t < |All(put)| && t < |cuts| && Labels(Act(lists, All(put)[t]))
                    && All(put)[t].slot == LastDef(log, Pc(pc)).value
                && ofs == At(Cells(lists, put, bound), cuts, t)
      ensures LastDef(log, Pc(pc)).None? || pc >= npc ==> ofs == -2
    {
      hide Ready, Words, Cells, Flat, All, Decided;
      t := 0;
      if pc < npc {
        var pos := labels[Pc(pc)];
        t := PcFacts(lists, put, bound, b, cuts, Pc(pc));
        if pos < 0 {
          var at: nat := -pos;
          ofs := b[at];
          return;
        }
        if pos > 0 {
          return -1, t;
        }
      }
      ofs := -2;
    }

    /** What an action put to section c needs. */
    ghost predicate Putting(c: nat, pos: nat, ofs: nat, it: Item)
      reads this
    {
      c < |secs| == |trace| && AsmOk(lists, Now(c, pos, ofs)) && CanPut(lists, Now(c, pos, ofs), c, it)
    }
  }

  lemma PlaceOf(lists: seq<seq<Action>>, a: Asm, c: nat, it: Item)
    requires CanPut(lists, a, c, it)
    ensures it.slot == a.secs[c].pos && it.est == a.secs[c].ofs
  {
  }

  lemma RefNew(lists: seq<seq<Action>>, a: Asm, c: nat, it: Item)
    requires AsmOk(lists, a) && CanPut(lists, a, c, it) && Refers(Act(lists, it)) && it.slot > 0
    ensures NewSlot(a.table, it.slot) && TableOk(a.table) && a.table.labels.Keys == a.table.chain.Keys
    ensures var act := Act(lists, it);
            && (KindOf(act).Back? || KindOf(act).Forward? ==> Local(NameOf(act, it.arg)))
            && (KindOf(act).Either? ==> !Local(NameOf(act, it.arg)))
  {
    FreshSlot(lists, a, c, it.slot);
    ActionOf(lists, it);
  }

  lemma ActionOf(lists: seq<seq<Action>>, it: Item)
    requires ListsOk(lists) && ItemOk(lists, it) && it.p > 0
    ensures ActionOk(lists[it.start], it.p - 1) && ListOk(lists[it.start])
  {
    assert lists[it.start] in lists;
  }

  lemma TableOf(lists: seq<seq<Action>>, a: Asm, l: Label)
    requires AsmOk(lists, a) && l in a.table.labels
    ensures TableOk(a.table) && l in a.table.chain && Chained(a.table, l)
  {
    ChainWords(a.table, l);
  }

  /** The first k slots of the chain hold pos; the rest of the buffer is as it was. */
  ghost predicate PartCollapsed(b0: map<nat, int>, c: seq<nat>, k: nat, pos: int, b: map<nat, int>)
    requires k <= |c|
  {
    && (forall y: nat {:trigger y in b} {:trigger y in b0} :: y in b0 && y !in c[..k] ==> y in b && b[y] == b0[y])
    && (forall j {:trigger c[j]} :: 0 <= j < k ==> c[j] in b && b[c[j]] == pos)
  }

  lemma CollapseStart(b0: map<nat, int>, c: seq<nat>, pos: int)
    ensures PartCollapsed(b0, c, 0, pos, b0)
  {
  }

  lemma CollapseStep(b0: map<nat, int>, c: seq<nat>, k: nat, pos: int, b: map<nat, int>)
    requires k < |c| && PartCollapsed(b0, c, k, pos, b) && c[k] in b0
    requires forall i, j {:trigger c[i], c[j]} :: 0 <= i < j < |c| ==> c[i] != c[j]
    ensures c[k] in b && b[c[k]] == b0[c[k]] && PartCollapsed(b0, c, k + 1, pos, b[c[k] := pos])
  {
    assert c[..k + 1] == c[..k] + [c[k]];
  }

  lemma CollapseEnd(b0: map<nat, int>, c: seq<nat>, pos: int, b: map<nat, int>)
    requires PartCollapsed(b0, c, |c|, pos, b)
    ensures forall y: nat {:trigger y in b} {:trigger y in b0} :: y in b0 ==> y in b && b[y] == if y in c then pos
              else b0[y]
  {
    assert c[..|c|] == c;
    forall y: nat | y in b0 && y in c ensures y in b && b[y] == pos {
      var j :| 0 <= j < |c| && c[j] == y;
    }
  }

  /** Where the trace t stands in list start: before place p. */
  ghost predicate Continues(lists: seq<seq<Action>>, t: seq<Item>, start: nat, p: nat)
    requires start < |lists|
  {
    if p == 0 || p == |lists[start]| + 1 then Closed(lists, t)
    else t != [] && !Closed(lists, t) && t[|t| - 1].start == start && t[|t| - 1].p == p - 1
  }

  lemma PutBegins(lists: seq<seq<Action>>, a: Asm, c: nat, start: nat)
    requires AsmOk(lists, a) && c < |a.secs| && start < |lists|
             && (forall s: nat {:trigger a.trace[s]} :: s < |a.trace| ==> Closed(lists, a.trace[s]))
    ensures |a.secs| == |a.trace| && Continues(lists, a.trace[c], start, 0) && ListOk(lists[start])
  {
  }

  lemma CanPutNext(lists: seq<seq<Action>>, a: Asm, c: nat, it: Item, args: seq<int>)
    requires AsmOk(lists, a) && c < |a.secs| == |a.trace| && it.start < |lists| && it.p <= |lists[it.start]|
    requires Continues(lists, a.trace[c], it.start, it.p) && ArgsFit(lists[it.start], it.p, args)
    requires it.slot == a.secs[c].pos && it.est == a.secs[c].ofs && it.slot + 2 < (c + 1) * SEC
    requires var act := At0(lists[it.start], it.p);
             it.arg == ArgOf(act, args) && (act.Imm? ==> FitsIn(act.w, it.arg))
                 && (act.RelPc? || act.ImmPc? || act.LabelPc? ==> it.arg >= 0)
    ensures CanPut(lists, a, c, it) && Act(lists, it) == At0(lists[it.start], it.p)
  {
    hide AsmOk;
    assert Act(lists, it) == At0(lists[it.start], it.p);
  }

  lemma SectionLast(lists: seq<seq<Action>>, a: Asm, start: nat, p: nat)
    requires AsmOk(lists, a) && start < |lists| && p <= |lists[start]| && Ends(At0(lists[start], p))
    ensures p == |lists[start]|
  {
    assert lists[start] in lists && ListOk(lists[start]) && ActionOk(lists[start], p - 1);
  }

  lemma ContinuesNext(lists: seq<seq<Action>>, t: seq<Item>, start: nat, p: nat)
    requires start < |lists| && p <= |lists[start]| && t != [] && t[|t| - 1].start == start && t[|t| - 1].p == p
             && ListOk(lists[start])
    ensures Continues(lists, t, start, p + 1)
  {
    if p > 0 {
      assert ActionOk(lists[start], p - 1);
    }
  }

  lemma NoEvents(lists: seq<seq<Action>>)
    ensures EventsOf(lists, []) == []
  {
  }

  /** One item of a put is done. */
  lemma PutStep(lists: seq<seq<Action>>, it: Item, args: seq<int>, done: seq<Item>)
    requires it.start < |lists| && it.p <= |lists[it.start]| && it.arg == ArgOf(At0(lists[it.start], it.p), args)
             && ArgsFit(lists[it.start], it.p, args)
    ensures var act := At0(lists[it.start], it.p);
            && done + ItemsFrom(lists, it.start, it.p, it.slot, it.est, args)
            == (done + [it])
                + ItemsFrom(lists, it.start, it.p + 1, it.slot + Slots(act), it.est + Bytes(act, it.arg),
                            RestOf(act, args))
            && EventsOf(lists, done + [it]) == EventsOf(lists, done) + Events(lists, it)
            && ArgsFit(lists[it.start], it.p + 1, RestOf(act, args))
            && (it.p == 0 ==> Slots(act) == 1) && Slots(act) <= 2
  {
    assert (done + [it])[..|done|] == done;
  }

  lemma PutEnd(lists: seq<seq<Action>>, start: nat, pos: nat, ofs: nat, rest: seq<int>, done: seq<Item>)
    requires start < |lists|
    ensures done + ItemsFrom(lists, start, |lists[start]| + 1, pos, ofs, rest) == done
  {
  }

  lemma NothingLeft(lists: seq<seq<Action>>, log: seq<Event>, nlg: nat, npc: nat, nsec: nat, start: nat, pos: nat,
                    ofs: nat, rest: seq<int>)
    requires start < |lists|
    ensures Outcome(lists, log, nlg, npc, nsec, ItemsFrom(lists, start, |lists[start]| + 1, pos, ofs, rest)) == Ok
  {
  }

  lemma Forgets(lists: seq<seq<Action>>, a: Asm, a2: Asm)
    requires AsmOk(lists, a) && a2 == a.(table := a.table.(labels := a2.table.labels, log := a.table.log + [Forget]))
    requires a2.table.labels.Keys == a.table.labels.Keys
    requires forall l {:trigger l in a2.table.labels} :: l in a2.table.labels ==>
               a2.table.labels[l] == (if Local(l) then 0 else a.table.labels[l])
                   && (Local(l) ==> a.table.labels[l] <= 0)
    ensures AsmOk(lists, a2)
  {
    hide TableOk, ListsOk, TracesOk, LabelAt;
    ForgetOk(a.table, a2.table.labels);
    assert a2.table == Table(a2.table.labels, a.table.b, a.table.log + [Forget], a.table.chain);
    forall s: nat, k: nat | s < |a2.trace| && k < |a2.trace[s]| ensures ItemHeld(lists, a2, a2.trace[s][k]) {
      assert ItemHeld(lists, a, a.trace[s][k]);
    }
    forall e | e in a2.table.log ensures EventOk(lists, a2, e) {
      if e in a.table.log {
        assert EventOk(lists, a, e);
      }
    }
    assert TracesOk(lists, a2) by { TracesSame(lists, a, a2); }
  }

  lemma TracesSame(lists: seq<seq<Action>>, a: Asm, a2: Asm)
    requires TracesOk(lists, a) && a2.trace == a.trace && a2.secs == a.secs
    ensures TracesOk(lists, a2)
  {
    forall s: nat | s < |a2.trace| ensures SecOk(lists, a2, s) {
      assert SecOk(lists, a, s);
    }
  }

  lemma KeysOf(lists: seq<seq<Action>>, a: Asm)
    requires AsmOk(lists, a)
    ensures a.table.labels.Keys == a.table.chain.Keys && TableOk(a.table)
  {
  }

  lemma MarkStart(lists: seq<seq<Action>>, a: Asm)
    requires AsmOk(lists, a)
    ensures Marked(a.table.b, a.table.b, a.table.chain, 10)
  {
    forall y: nat ensures MarkedAt(a.table.b, a.table.b, a.table.chain, 10, y) {
    }
  }

  lemma MarkEnd(lists: seq<seq<Action>>, a: Asm, b: map<nat, int>, nlg: nat, npc: nat)
    requires AsmOk(lists, a) && Marked(a.table.b, b, a.table.chain, nlg) && nlg >= 10
    requires forall l {:trigger l in a.table.labels} :: l in a.table.labels
               <==> if l.Lg? then 0 < l.i < nlg else l.i < npc
    requires forall i: nat :: 1 <= i < 10 && Lg(i) in a.table.labels ==> a.table.labels[Lg(i)] <= 0
    requires forall i: nat {:trigger Pc(i)} :: i < npc ==> a.table.labels[Pc(i)] <= 0
    requires forall s: nat {:trigger a.trace[s]} :: s < |a.trace| ==> Closed(lists, a.trace[s])
    ensures Ready(lists, a, b)
  {
    hide TableOk, ListsOk, TracesOk, FixedOk, BelowOk, EventsOk, ItemsHeld, Marked;
    forall l | l in a.table.labels
      ensures if l.Lg? then 0 < l.i < nlg && (l.i < 10 ==> a.table.labels[l] <= 0) else a.table.labels[l] <= 0 {
      if l.Lg? && l.i < 10 {
        assert l == Lg(l.i);
      } else if l.Pc? {
        assert l == Pc(l.i);
      }
    }
    MarkResolves(a.table, b, nlg);
    MarkFixed(lists, a, b, nlg);
  }

  lemma LinkStart(lists: seq<seq<Action>>, a: Asm, b0: map<nat, int>, b: map<nat, int>, cuts: seq<nat>, s: nat, i: nat,
                  ofs: int)
    requires Ready(lists, a, b0) && s < |a.trace| && i < |a.trace[s]| && |cuts| == Place(a, s, i)
             && OffsetOk(a, cuts, s, ofs)
    requires Words(lists, All(a), Cells(lists, a, b0), cuts, b0, b)
    ensures TracesOk(lists, a) && |a.secs| == |a.trace| && |cuts| < |All(a)| && All(a)[|cuts|] == a.trace[s][i]
            && |Cells(lists, a, b0)| == |All(a)|
    ensures var x := a.trace[s][i].slot;
            Refers(Act(lists, a.trace[s][i])) ==> x in b && x in b0 && b[x] == b0[x] && b[x] != 0
  {
    hide TableOk, ListsOk, FixedOk, BelowOk, EventsOk, ItemsHeld, Resolved;
    OffsetAt(lists, a, b0, cuts, s, i, ofs);
    assert WordOk(lists, All(a), Cells(lists, a, b0), cuts, b0, b, |cuts|);
    if Refers(Act(lists, a.trace[s][i])) {
      LinkValue(lists, a, b0, |cuts|);
    }
  }

  /** The test of the second pass decides the cell. */
  lemma JumpCut(lists: seq<seq<Action>>, a: Asm, b0: map<nat, int>, cuts: seq<nat>, lofs: int)
    requires |cuts| < |All(a)| == |Cells(lists, a, b0)| && Rel(Act(lists, All(a)[|cuts|]))
             && ShrinkOf(OpBefore(lists, All(a), |cuts|)) > 0
    requires Cells(lists, a, b0)[|cuts|].Jump? && 0 <= Cells(lists, a, b0)[|cuts|].target < |Cells(lists, a, b0)|
    requires lofs == Distance(Cells(lists, a, b0), cuts, |cuts|, Cells(lists, a, b0)[|cuts|].target)
    ensures var sh := ShrinkOf(OpBefore(lists, All(a), |cuts|));
            CutOf(Cells(lists, a, b0), cuts, |cuts|) == if -128 - sh <= lofs <= 127 then sh else 0
  {
  }

  lemma SectionFacts(lists: seq<seq<Action>>, a: Asm, b0: map<nat, int>, s: nat)
    requires Ready(lists, a, b0) && s < |a.trace|
    ensures |a.secs| == |a.trace| && Trace(lists, a.trace[s], s) && Closed(lists, a.trace[s])
            && a.secs[s].pos == EndSlot(lists, a.trace[s], s)
    ensures a.trace[s] != [] ==> a.trace[s][0].slot == s * SEC && a.trace[s][0].p == 0
    ensures a.trace[s] == [] ==> EndSlot(lists, a.trace[s], s) == s * SEC
  {
    hide TableOk, ListsOk, FixedOk, BelowOk, EventsOk, ItemsHeld, Resolved;
    SecIs(lists, a, s);
  }

  /** At the start of a put the buffer holds its list. */
  lemma EnterFacts(lists: seq<seq<Action>>, a: Asm, b0: map<nat, int>, b: map<nat, int>, cuts: seq<nat>, s: nat, i: nat)
    requires Ready(lists, a, b0) && s < |a.trace| && i < |a.trace[s]| && a.trace[s][i].p == 0
             && |cuts| == Place(a, s, i)
    requires Words(lists, All(a), Cells(lists, a, b0), cuts, b0, b)
    ensures a.trace[s][i].slot in b && b[a.trace[s][i].slot] == a.trace[s][i].start && a.trace[s][i].start < |lists|
    ensures lists[a.trace[s][i].start] != [] && Act(lists, a.trace[s][i]) == Enter
  {
    hide TableOk, FixedOk, BelowOk, EventsOk, ItemsHeld, Resolved;
    FlatAt(a.trace, |a.trace|, s, i);
    assert WordOk(lists, All(a), Cells(lists, a, b0), cuts, b0, b, |cuts|);
    SecIs(lists, a, s);
    assert ItemOk(lists, a.trace[s][i]);
    assert lists[a.trace[s][i].start] in lists;
  }

  lemma ItemFacts(lists: seq<seq<Action>>, a: Asm, b0: map<nat, int>, s: nat, i: nat)
    requires Ready(lists, a, b0) && s < |a.trace| && i < |a.trace[s]|
    ensures a.trace[s][i].start < |lists| && a.trace[s][i].p <= |lists[a.trace[s][i].start]|
  {
    hide TableOk, ListsOk, FixedOk, BelowOk, EventsOk, ItemsHeld, Resolved;
    SecIs(lists, a, s);
    assert ItemOk(lists, a.trace[s][i]);
  }

  /** In the middle of a list the item is the action at that place, and the opcode is before it. */
  lemma ActFacts(lists: seq<seq<Action>>, a: Asm, b0: map<nat, int>, cuts: seq<nat>, s: nat, i: nat)
    requires Ready(lists, a, b0) && s < |a.trace| && i < |a.trace[s]| && a.trace[s][i].p > 0 && |cuts| == Place(a, s, i)
    ensures var it := a.trace[s][i];
            && it.start < |lists| && it.p <= |lists[it.start]| && Act(lists, it) == lists[it.start][it.p - 1]
            && |cuts| < |All(a)|
            && (Rel(Act(lists, it)) ==>
                  OpBefore(lists, All(a), |cuts|)
                      == (if it.p > 1 && lists[it.start][it.p - 2].Byte? then lists[it.start][it.p - 2].v else 0))
  {
    hide TableOk, FixedOk, BelowOk, EventsOk, ItemsHeld, Resolved;
    FlatAt(a.trace, |a.trace|, s, i);
    ItemFacts(lists, a, b0, s, i);
    SecIs(lists, a, s);
    if Rel(Act(lists, a.trace[s][i])) {
      OpcodeBefore(lists, a.trace[s], s, i);
      FlatAt(a.trace, |a.trace|, s, i - 1);
    }
  }

  lemma EndFacts(lists: seq<seq<Action>>, a: Asm, b0: map<nat, int>, s: nat, i: nat, pos: nat)
    requires Ready(lists, a, b0) && s < |a.trace| && s < |a.secs| && i <= |a.trace[s]| && pos == a.secs[s].pos
    requires i < |a.trace[s]| ==> pos == a.trace[s][i].slot && a.trace[s][i].p == 0
    ensures i == |a.trace[s]|
  {
    hide TableOk, ListsOk, FixedOk, BelowOk, EventsOk, ItemsHeld, Resolved;
    SecIs(lists, a, s);
    if i < |a.trace[s]| {
      SlotRange(lists, a.trace[s], s, i);
    }
  }

  lemma LinkBegins(lists: seq<seq<Action>>, a: Asm, b0: map<nat, int>)
    requires Ready(lists, a, b0)
    ensures |a.secs| == |a.trace| && SoFar(Cells(lists, a, b0), [])
            && Words(lists, All(a), Cells(lists, a, b0), [], b0, b0)
    ensures Place(a, 0, 0) == 0
  {
    hide TableOk, ListsOk, FixedOk, BelowOk, EventsOk, ItemsHeld, Resolved;
    ReadyWords(lists, a, b0);
    SecsMatch(lists, a);
  }

  lemma NextSection(a: Asm, s: nat)
    requires s < |a.trace|
    ensures Place(a, s, |a.trace[s]|) == Place(a, s + 1, 0)
  {
    assert Flat(a.trace, s + 1) == Flat(a.trace, s) + a.trace[s];
  }

  lemma LinkEnds(lists: seq<seq<Action>>, a: Asm, b0: map<nat, int>, cuts: seq<nat>)
    requires Ready(lists, a, b0) && SoFar(Cells(lists, a, b0), cuts) && |cuts| == Place(a, |a.trace|, 0)
    ensures Decided(Cells(lists, a, b0), cuts) && |a.secs| == |a.trace|
    ensures At(Cells(lists, a, b0), cuts, |cuts|) == Base(a.secs, |a.secs|) - Sum(cuts, |cuts|)
  {
    hide AsmOk, Resolved, CutOf, CellsOf;
    GuessEnd(lists, a, b0);
  }

  lemma GuessEnd(lists: seq<seq<Action>>, a: Asm, b0: map<nat, int>)
    requires Ready(lists, a, b0)
    ensures |a.secs| == |a.trace| && |Cells(lists, a, b0)| == |All(a)|
            && Guess(Cells(lists, a, b0), |All(a)|) == Base(a.secs, |a.secs|)
  {
    hide TableOk, ListsOk, FixedOk, BelowOk, EventsOk, ItemsHeld, Resolved, CellsOf, Trace;
    SecsMatch(lists, a);
    CellsLong(lists, a, b0);
    var n := |a.trace|;
    if n > 0 {
      GuessAt(lists, a, b0, n - 1, |a.trace[n - 1]|);
      SecIs(lists, a, n - 1);
      NextSection(a, n - 1);
    }
  }

  /** What the third pass finds at a relative reference. */
  ghost predicate RelKnown(lists: seq<seq<Action>>, y: Layout, b: map<nat, int>, it: Item, k: nat, out: seq<nat>,
                           lpos: nat) {
    && k < |y.f| == |y.cuts| && y.f[k] == it && it.slot in b && it.slot in y.b0 && b[it.slot] == y.b0[it.slot]
    && it.slot + 1 in b && b[it.slot + 1] == y.cuts[k] && y.cuts[k] in {0, 3, 4}
    && (b[it.slot] < 0 ==> y.cuts[k] == 0) && (b[it.slot] >= 0 ==> b[it.slot] == lpos && lpos in b)
    && Disp(lists, y, k)
         == (if b[it.slot] < 0 then Extern(y, -b[it.slot]) - (y.base + |out| + 4)
             else b[lpos] - (|out| + 4 - y.cuts[k]))
    && |out| == A(y, k) && A(y, k + 1) == |out| + 4 - y.cuts[k]
    && (ShrunkAt(lists, y, k) <==> y.cuts[k] > 0)
    && (y.cuts[k] > 0 ==> k > 0 && |out| > 0 && Act(lists, y.f[k - 1]).Byte?)
    && (y.cuts[k] == 4 ==>
        k > 1 && |out| > 1 && Act(lists, y.f[k - 2]).Byte? && out[|out| - 1] == OpBefore(lists, y.f, k)
            && OpBefore(lists, y.f, k) >= 0x10)
  }

  lemma RelFacts(lists: seq<seq<Action>>, a: Asm, b0: map<nat, int>, b: map<nat, int>, cuts: seq<nat>, y: Layout,
                 s: nat, i: nat, out: seq<nat>) returns (lpos: nat)
    requires Ready(lists, a, b0) && Decided(Cells(lists, a, b0), cuts)
             && Words(lists, All(a), Cells(lists, a, b0), cuts, b0, b)
    requires s < |a.trace| && i < |a.trace[s]| && Rel(Act(lists, a.trace[s][i]))
    requires y == Layout(All(a), Cells(lists, a, b0), cuts, b0, y.base, y.globals)
             && AllPlaced(lists, y, out, Place(a, s, i))
    ensures RelKnown(lists, y, b, a.trace[s][i], Place(a, s, i), out, lpos) && LayoutOk(lists, y)
  {
    hide AsmOk, Resolved, Cells, All, Disp, Placed;
    LaidOut(lists, a, b0, cuts, y);
    var k := Place(a, s, i);
    ItemIs(lists, a, s, i);
    assert WordOk(lists, All(a), Cells(lists, a, b0), cuts, b0, b, k);
    LinkValue(lists, a, b0, k);
    ByteCell(lists, y, k);
    CutValues(lists, y, k);
    lpos := 0;
    if b[a.trace[s][i].slot] > 0 {
      lpos := b[a.trace[s][i].slot];
      LabelValue(lists, a, b0, b, cuts, y, k, lpos);
    }
    DispIs(lists, y, k);
    if cuts[k] > 0 {
      OpcodeItems(lists, a, b0, y, s, i, out);
    }
  }

  lemma LaidOut(lists: seq<seq<Action>>, a: Asm, b0: map<nat, int>, cuts: seq<nat>, y: Layout)
    requires Decided(Cells(lists, a, b0), cuts) && y == Layout(All(a), Cells(lists, a, b0), cuts, b0, y.base, y.globals)
    ensures LayoutOk(lists, y)
  {
    CellsWellFormed(lists, All(a), b0);
  }

  lemma ItemIs(lists: seq<seq<Action>>, a: Asm, s: nat, i: nat)
    requires s < |a.trace| && i < |a.trace[s]|
    ensures Place(a, s, i) < |All(a)| && All(a)[Place(a, s, i)] == a.trace[s][i]
  {
    FlatAt(a.trace, |a.trace|, s, i);
  }

  /** What a branch can save. */
  lemma CutValues(lists: seq<seq<Action>>, y: Layout, k: nat)
    requires LayoutOk(lists, y) && k < |y.f| && Rel(Act(lists, y.f[k])) && y.f[k].slot in y.b0
    ensures y.cuts[k] == 0 || y.cuts[k] == ShrinkOf(OpBefore(lists, y.f, k))
    ensures y.b0[y.f[k].slot] < 0 ==> y.cuts[k] == 0
  {
    DecidedAt(y.cells, y.cuts, k);
    FindLabelIs(lists, y.f, y.b0[y.f[k].slot], 0);
  }

  /** The buffer has the final offset of a label. */
  lemma LabelValue(lists: seq<seq<Action>>, a: Asm, b0: map<nat, int>, b: map<nat, int>, cuts: seq<nat>, y: Layout,
                   k: nat, lpos: nat)
    requires Ready(lists, a, b0) && Decided(Cells(lists, a, b0), cuts)
             && Words(lists, All(a), Cells(lists, a, b0), cuts, b0, b)
    requires y == Layout(All(a), Cells(lists, a, b0), cuts, b0, y.base, y.globals)
    requires k < |All(a)| && Refers(Act(lists, All(a)[k])) && All(a)[k].slot in b0 && b0[All(a)[k].slot] == lpos
             && lpos > 0
    ensures lpos in b && b[lpos] == LabelOfs(lists, y, lpos)
  {
    hide AsmOk, Resolved, Cells, Flat;
    var s, i := TargetIs(lists, a, b0, k);
    var t := Place(a, s, i);
    FindOne(lists, a, t);
    assert WordOk(lists, All(a), Cells(lists, a, b0), cuts, b0, b, t) by {
      assert All(a)[t] == All(a)[t];
    }
    CellsLong(lists, a, b0);
  }

  lemma FindOne(lists: seq<seq<Action>>, a: Asm, t: nat)
    requires AsmOk(lists, a) && t < |All(a)| && Labels(Act(lists, All(a)[t]))
    ensures FindLabel(lists, All(a), All(a)[t].slot, 0) == t
  {
    hide ListsOk, TableOk, FixedOk, EventsOk, BelowOk, ItemsHeld, TracesOk;
    var f := All(a);
    forall j | 0 <= j < t && Labels(Act(lists, f[j])) ensures f[j].slot != f[t].slot {
      OneLabel(lists, a, j, t);
    }
    FindLabelThere(lists, f, f[t].slot, 0, t);
  }

  lemma CellsLong(lists: seq<seq<Action>>, a: Asm, b0: map<nat, int>)
    ensures |Cells(lists, a, b0)| == |All(a)|
  {
  }

  lemma DispIs(lists: seq<seq<Action>>, y: Layout, k: nat)
    requires k < |y.f| && y.f[k].slot in y.b0
    ensures var x := y.b0[y.f[k].slot];
            Disp(lists, y, k) == if x < 0 then Extern(y, -x) - (y.base + A(y, k + 1))
                else LabelOfs(lists, y, x) - A(y, k + 1)
  {
  }

  /** The opcode bytes of a shrunk branch end the code so far. */
  lemma OpcodeItems(lists: seq<seq<Action>>, a: Asm, b0: map<nat, int>, y: Layout, s: nat, i: nat, out: seq<nat>)
    requires Ready(lists, a, b0) && y.f == All(a) && LayoutOk(lists, y) && s < |a.trace| && i < |a.trace[s]|
             && AllPlaced(lists, y, out, Place(a, s, i))
    requires Rel(Act(lists, a.trace[s][i])) && Place(a, s, i) < |y.f| && y.f[Place(a, s, i)] == a.trace[s][i]
    requires y.cuts[Place(a, s, i)] == ShrinkOf(OpBefore(lists, y.f, Place(a, s, i))) && y.cuts[Place(a, s, i)] > 0
    ensures var k := Place(a, s, i);
            && k > 0 && |out| > 0 && Act(lists, y.f[k - 1]).Byte?
            && (y.cuts[k] == 4 ==> k > 1 && |out| > 1 && Act(lists, y.f[k - 2]).Byte?
                                   && out[|out| - 1] == OpBefore(lists, y.f, k) && OpBefore(lists, y.f, k) >= 0x10)
  {
    hide Ready, LayoutOk, AllPlaced, All, Place;
    LayoutSize(lists, y);
    var k := Place(a, s, i);
    OpcodePlaces(lists, a, b0, s, i);
    LastByte(lists, y, out, k);
  }

  /** A byte just encoded ends the code so far. */
  lemma LastByte(lists: seq<seq<Action>>, y: Layout, out: seq<nat>, k: nat)
    requires LayoutOk(lists, y) && 0 < k < |y.f| && AllPlaced(lists, y, out, k) && Act(lists, y.f[k - 1]).Byte?
    ensures |out| > 0 && out[|out| - 1] == Act(lists, y.f[k - 1]).v
    ensures k > 1 && Act(lists, y.f[k - 2]).Byte? ==> |out| > 1
  {
    hide LayoutOk, A, Act;
    ByteCell(lists, y, k - 1);
    InOrder(lists, y, 0, k - 1);
    assert y.f[k - 1] == y.f[k - 1];
    assert Placed(lists, y, out, k - 1, k);
    NotEaten(lists, y, k - 1);
    if k > 1 {
      ByteCell(lists, y, k - 2);
      InOrder(lists, y, 0, k - 2);
    }
  }

  lemma LayoutSize(lists: seq<seq<Action>>, y: Layout)
    requires LayoutOk(lists, y)
    ensures |y.f| == |y.cuts| == |y.cells|
  {
  }

  lemma OpcodePlaces(lists: seq<seq<Action>>, a: Asm, b0: map<nat, int>, s: nat, i: nat)
    requires Ready(lists, a, b0) && s < |a.trace| && i < |a.trace[s]| && Rel(Act(lists, a.trace[s][i]))
    ensures var k := Place(a, s, i);
            && 0 < k < |All(a)| && Act(lists, All(a)[k - 1]).Byte?
            && (ShrinkOf(OpBefore(lists, All(a), k)) == 4 ==> k > 1 && Act(lists, All(a)[k - 2]).Byte?)
  {
    hide TableOk, FixedOk, EventsOk, BelowOk, ItemsHeld, Resolved;
    SecIs(lists, a, s);
    OpcodeBefore(lists, a.trace[s], s, i);
    FlatAt(a.trace, |a.trace|, s, i);
    FlatAt(a.trace, |a.trace|, s, i - 1);
    if i > 1 {
      FlatAt(a.trace, |a.trace|, s, i - 2);
    }
  }

  lemma SameMultiple(x: nat, next: int, n: nat)
    requires n > 0 && x <= next < x + n && x % n == 0 && next % n == 0
    ensures x == next
  {
    var p, q := x / n, next / n;
    assert x == n * p && next == n * q;
    assert (q - p) * n == next - x;
    if q != p {
      MulMore(if q > p then q - p else p - q, n);
    }
  }

  /** A global that is marked as not defined here is read as it was given. */
  lemma ExternSame(lists: seq<seq<Action>>, a: Asm, b0: map<nat, int>, y: Layout, s: nat, i: nat, g: map<nat, int>)
    requires Ready(lists, a, b0) && y.f == All(a) && y.b0 == b0 && s < |a.trace| && i < |a.trace[s]|
             && Refers(Act(lists, a.trace[s][i]))
    requires GlobalsOk(lists, y, Place(a, s, i), g) && a.trace[s][i].slot in b0
    ensures var x := b0[a.trace[s][i].slot];
            x < 0 ==> Extern(y, -x) == if -x in g then g[-x] else 0
  {
    hide Ready, All, NoneIn;
    var x := b0[a.trace[s][i].slot];
    if x < 0 {
      var idx: nat := -x;
      ItemIs(lists, a, s, i);
      NotDefinedHere(lists, a, b0, y, Place(a, s, i), idx);
      assert Untouched(lists, y, Place(a, s, i), g, idx);
    }
  }

  lemma NotDefinedHere(lists: seq<seq<Action>>, a: Asm, b0: map<nat, int>, y: Layout, k: nat, idx: nat)
    requires Ready(lists, a, b0) && y.f == All(a) && k < |All(a)| && Refers(Act(lists, All(a)[k]))
             && All(a)[k].slot in b0
    requires b0[All(a)[k].slot] == -(idx as int) < 0
    ensures NoneIn(lists, y, 0, k, idx)
  {
    hide Ready, All;
    forall j: nat | j < k ensures !Defines(lists, y, j, idx) {
      NotDefined(lists, a, b0, y, k, j, idx);
    }
  }

  /** The event of a reference that is marked, and of a definition. */
  lemma MarkedRef(lists: seq<seq<Action>>, a: Asm, b0: map<nat, int>, k: nat, idx: nat) returns (n: nat)
    requires Ready(lists, a, b0) && k < |All(a)| && Refers(Act(lists, All(a)[k])) && All(a)[k].slot in b0
    requires b0[All(a)[k].slot] == -(idx as int) < 0
    ensures n < |a.table.log| && a.table.log[n].Ref? && a.table.log[n].l == Lg(idx) && idx >= 10
    ensures a.table.log[n].kind.Either? && Resolve(a.table.log, n).None?
  {
    hide ListsOk, TracesOk, BelowOk, Resolve, FixedOk, LabelOk, EventsOk, ChainIsRefs, SlotsApart;
    LinkValue(lists, a, b0, k);
    var s, i := FlatIs(a.trace, |a.trace|, k);
    assert ItemHeld(lists, a, a.trace[s][i]);
    var act := Act(lists, All(a)[k]);
    var e := Ref(NameOf(act, All(a)[k].arg), All(a)[k].slot, KindOf(act));
    n :| 0 <= n < |a.table.log| && a.table.log[n] == e;
    assert RefOk(a.table, n);
  }

  lemma DefinedEvent(lists: seq<seq<Action>>, a: Asm, y: Layout, j: nat, idx: nat) returns (m: nat)
    requires AsmOk(lists, a) && y.f == All(a) && Defines(lists, y, j, idx)
    ensures m < |a.table.log| && a.table.log[m] == Def(Lg(idx), All(a)[j].slot)
  {
    hide ListsOk, TracesOk, BelowOk, FixedOk, TableOk, EventsOk;
    var s, i := FlatIs(a.trace, |a.trace|, j);
    assert ItemHeld(lists, a, a.trace[s][i]);
    var f := Def(Lg(idx), All(a)[j].slot);
    m :| 0 <= m < |a.table.log| && a.table.log[m] == f;
  }

  lemma NotDefined(lists: seq<seq<Action>>, a: Asm, b0: map<nat, int>, y: Layout, k: nat, j: nat, idx: nat)
    requires Ready(lists, a, b0) && y.f == All(a) && k < |All(a)| && Refers(Act(lists, All(a)[k]))
             && All(a)[k].slot in b0
    requires b0[All(a)[k].slot] == -(idx as int) < 0
    ensures !Defines(lists, y, j, idx)
  {
    hide AsmOk, Resolved, Defines, Resolve;
    if Defines(lists, y, j, idx) {
      var n := MarkedRef(lists, a, b0, k, idx);
      var m := DefinedEvent(lists, a, y, j, idx);
      OpenMeans(a.table.log, n, m);
    }
  }

  /** What the third pass finds at item i of section s. */
  ghost predicate EncodeKnown(lists: seq<seq<Action>>, y: Layout, b: map<nat, int>, it: Item, k: nat, out: seq<nat>) {
    var act := Act(lists, it);
    && k < |y.f| && y.f[k] == it && |out| == A(y, k)
    && (act.Imm? || act.Space? ==> it.slot in b && b[it.slot] == it.arg)
    && (act.Space? ==> it.arg >= 0)
    && (Labels(act) ==> it.slot in b && b[it.slot] == A(y, k))
    && (!Refers(act) && !act.Align? ==> A(y, k + 1) == A(y, k) + Bytes(act, it.arg))
    && (act.Align? ==> A(y, k) <= A(y, k + 1) < A(y, k) + act.mask + 1 && A(y, k + 1) % (act.mask + 1) == 0)
    && !(ShrunkAt(lists, y, k) && !Rel(act))
  }

  lemma EncodeFacts(lists: seq<seq<Action>>, a: Asm, b0: map<nat, int>, b: map<nat, int>, cuts: seq<nat>, y: Layout,
                    s: nat, i: nat, out: seq<nat>)
    requires Ready(lists, a, b0) && Decided(Cells(lists, a, b0), cuts)
             && Words(lists, All(a), Cells(lists, a, b0), cuts, b0, b)
    requires s < |a.trace| && i < |a.trace[s]|
    requires y == Layout(All(a), Cells(lists, a, b0), cuts, b0, y.base, y.globals)
             && AllPlaced(lists, y, out, Place(a, s, i))
    ensures EncodeKnown(lists, y, b, a.trace[s][i], Place(a, s, i), out) && LayoutOk(lists, y)
            && Place(a, s, i + 1) == Place(a, s, i) + 1
  {
    hide TableOk, ListsOk, FixedOk, EventsOk, BelowOk, ItemsHeld, Resolved, Cells, All, Placed;
    LaidOut(lists, a, b0, cuts, y);
    var k := Place(a, s, i);
    ItemIs(lists, a, s, i);
    assert WordOk(lists, All(a), Cells(lists, a, b0), cuts, b0, b, k);
    ByteCell(lists, y, k);
    SecIs(lists, a, s);
    assert ItemOk(lists, a.trace[s][i]);
    KindFacts(lists, y, k);
  }

  lemma KindFacts(lists: seq<seq<Action>>, y: Layout, k: nat)
    requires LayoutOk(lists, y) && k < |y.f|
    ensures var act := Act(lists, y.f[k]);
            && (!Refers(act) && !act.Align? ==> A(y, k + 1) == A(y, k) + Bytes(act, y.f[k].arg))
            && (Refers(act) && !Rel(act) ==> A(y, k + 1) == A(y, k) + 4)
            && (act.Align? ==> A(y, k) <= A(y, k + 1) < A(y, k) + act.mask + 1 && A(y, k + 1) % (act.mask + 1) == 0)
  {
    DecidedAt(y.cells, y.cuts, k);
    if y.cells[k].Pad? {
      PadAligns(y.cells, y.cuts, k);
    }
  }

  /** An item that makes no code. */
  lemma EmitNothing(lists: seq<seq<Action>>, y: Layout, out: seq<nat>, k: nat)
    requires LayoutOk(lists, y) && AllPlaced(lists, y, out, k) && k < |y.f| && A(y, k + 1) == A(y, k)
    requires var act := Act(lists, y.f[k]); !Refers(act) && !act.Byte? && !act.Imm? && !act.Space? && !act.Align?
    ensures AllPlaced(lists, y, out, k + 1)
  {
    hide LayoutOk, AllPlaced, A;
    EmitMore(lists, y, out, [], k);
    assert out + [] == out;
  }

  lemma ImmFacts(lists: seq<seq<Action>>, a: Asm, b0: map<nat, int>, b: map<nat, int>, cuts: seq<nat>, y: Layout,
                 s: nat, i: nat, out: seq<nat>) returns (lpos: nat)
    requires Ready(lists, a, b0) && Decided(Cells(lists, a, b0), cuts)
             && Words(lists, All(a), Cells(lists, a, b0), cuts, b0, b)
    requires s < |a.trace| && i < |a.trace[s]| && Refers(Act(lists, a.trace[s][i])) && !Rel(Act(lists, a.trace[s][i]))
    requires y == Layout(All(a), Cells(lists, a, b0), cuts, b0, y.base, y.globals)
             && AllPlaced(lists, y, out, Place(a, s, i))
    ensures ImmKnown(lists, y, b, a.trace[s][i], Place(a, s, i), out, lpos) && LayoutOk(lists, y)
  {
    hide AsmOk, Resolved, Cells, All, Placed;
    LaidOut(lists, a, b0, cuts, y);
    var k := Place(a, s, i);
    ItemIs(lists, a, s, i);
    assert WordOk(lists, All(a), Cells(lists, a, b0), cuts, b0, b, k);
    LinkValue(lists, a, b0, k);
    KindFacts(lists, y, k);
    lpos := 0;
    if b[a.trace[s][i].slot] > 0 {
      lpos := b[a.trace[s][i].slot];
      LabelValue(lists, a, b0, b, cuts, y, k, lpos);
    }
  }

  ghost predicate ImmKnown(lists: seq<seq<Action>>, y: Layout, b: map<nat, int>, it: Item, k: nat, out: seq<nat>,
                           lpos: nat) {
    && k < |y.f| && y.f[k] == it && it.slot in b && it.slot in y.b0 && b[it.slot] == y.b0[it.slot]
    && (b[it.slot] >= 0 ==> b[it.slot] == lpos && lpos in b)
    && Address(lists, y, k) == (if b[it.slot] < 0 then Extern(y, -b[it.slot]) else b[lpos] + y.base)
    && A(y, k + 1) == A(y, k) + 4 && |out| == A(y, k) && !ShrunkAt(lists, y, k)
  }

  lemma EnterWord(lists: seq<seq<Action>>, a: Asm, b0: map<nat, int>, b: map<nat, int>, cuts: seq<nat>, s: nat, i: nat)
    requires Ready(lists, a, b0) && s < |a.trace| && i < |a.trace[s]| && a.trace[s][i].p == 0
    requires Words(lists, All(a), Cells(lists, a, b0), cuts, b0, b)
    ensures a.trace[s][i].slot in b && b[a.trace[s][i].slot] == a.trace[s][i].start && a.trace[s][i].start < |lists|
    ensures lists[a.trace[s][i].start] != [] && Act(lists, a.trace[s][i]) == Enter
  {
    hide TableOk, FixedOk, BelowOk, EventsOk, ItemsHeld, Resolved;
    ItemIs(lists, a, s, i);
    assert WordOk(lists, All(a), Cells(lists, a, b0), cuts, b0, b, Place(a, s, i));
    SecIs(lists, a, s);
    assert ItemOk(lists, a.trace[s][i]);
    assert lists[a.trace[s][i].start] in lists;
  }

  lemma PlaceFacts(lists: seq<seq<Action>>, a: Asm, b0: map<nat, int>, s: nat, i: nat)
    requires Ready(lists, a, b0) && s < |a.trace| && i < |a.trace[s]| && a.trace[s][i].p > 0
    ensures var it := a.trace[s][i];
            it.start < |lists| && it.p <= |lists[it.start]| && Act(lists, it) == lists[it.start][it.p - 1]
  {
    hide AsmOk, Resolved;
    ItemFacts(lists, a, b0, s, i);
  }

  lemma EncodeBegins(lists: seq<seq<Action>>, a: Asm, b0: map<nat, int>, cuts: seq<nat>, y: Layout)
    requires Ready(lists, a, b0) && y == Layout(All(a), Cells(lists, a, b0), cuts, b0, y.base, y.globals)
    ensures |a.secs| == |a.trace| && Place(a, 0, 0) == 0 && AllPlaced(lists, y, [], 0)
            && GlobalsOk(lists, y, 0, y.globals)
  {
    hide TableOk, ListsOk, FixedOk, BelowOk, EventsOk, ItemsHeld, Resolved;
    SecsMatch(lists, a);
  }

  lemma EncodeEnds(lists: seq<seq<Action>>, a: Asm, b0: map<nat, int>, cuts: seq<nat>, y: Layout, out: seq<nat>)
    requires y == Layout(All(a), Cells(lists, a, b0), cuts, b0, y.base, y.globals) && Decided(Cells(lists, a, b0), cuts)
    requires AllPlaced(lists, y, out, Place(a, |a.trace|, 0))
    ensures |out| == At(Cells(lists, a, b0), cuts, |cuts|) && Place(a, |a.trace|, 0) == |All(a)|
  {
    CellsLong(lists, a, b0);
  }

  // ----- what the code does ---------------------------------------------------------------------

  /** The number that w bytes of two's complement stand for. */
  function Signed(v: int, w: nat): int { if 2 * v < Pow256(w) then v else v - Pow256(w) }

  lemma SignedOf(n: int, w: nat)
    requires w > 0 && 0 <= 2 * n + Pow256(w) && 2 * n < Pow256(w)
    ensures Signed(n % Pow256(w), w) == n
  {
    if n < 0 {
      ModOf(n, Pow256(w), -1, n + Pow256(w));
    } else {
      ModOf(n, Pow256(w), 0, n);
    }
  }

  /** Every branch to a label that is defined lands on it: the displacement that ends the encoded
      instruction, one byte or four, added to the address behind the instruction, gives the address
      of the definition that the reference names. */
  lemma BranchLands(lists: seq<seq<Action>>, a: Asm, b0: map<nat, int>, cuts: seq<nat>, y: Layout, out: seq<nat>,
                    n: nat, k: nat) returns (t: nat)
    requires Ready(lists, a, b0) && Decided(Cells(lists, a, b0), cuts)
             && y == Layout(All(a), Cells(lists, a, b0), cuts, b0, y.base, y.globals)
    requires AllPlaced(lists, y, out, |All(a)|) && |out| < 0x8000_0000
    requires n < |a.table.log| && a.table.log[n].Ref? && Resolve(a.table.log, n).Some?
    requires k < |All(a)| && Rel(Act(lists, All(a)[k])) && All(a)[k].slot == a.table.log[n].slot
    ensures t < |All(a)| && Labels(Act(lists, All(a)[t])) && Resolve(a.table.log, n) == Some(All(a)[t].slot)
    ensures var hi := A(y, k + 1);
            if cuts[k] > 0 then 0 < hi <= |out| && hi + Signed(out[hi - 1], 1) == A(y, t)
            else 4 <= hi <= |out| && hi + Signed(Value(out[hi - 4..hi]), 4) == A(y, t)
  {
    hide AsmOk, Resolve, All, Cells, A, Decided;
    assert All(a)[k].slot in b0 && b0[All(a)[k].slot] == Resolve(a.table.log, n).value;
    var x := Resolve(a.table.log, n).value;
    LinkValue(lists, a, b0, k);
    var s, i := TargetIs(lists, a, b0, k);
    t := Place(a, s, i);
    FindOne(lists, a, t);
    LaidOut(lists, a, b0, cuts, y);
    LandsOn(lists, y, out, k, t);
  }

  lemma LandsOn(lists: seq<seq<Action>>, y: Layout, out: seq<nat>, k: nat, t: nat)
    requires LayoutOk(lists, y) && AllPlaced(lists, y, out, |y.f|) && |out| < 0x8000_0000 && k < |y.f|
             && Rel(Act(lists, y.f[k]))
    requires t < |y.f| && y.f[k].slot in y.b0 && y.b0[y.f[k].slot] > 0
             && FindLabel(lists, y.f, y.b0[y.f[k].slot], 0) == t
    ensures var hi := A(y, k + 1);
            if y.cuts[k] > 0 then 0 < hi <= |out| && hi + Signed(out[hi - 1], 1) == A(y, t)
            else 4 <= hi <= |out| && hi + Signed(Value(out[hi - 4..hi]), 4) == A(y, t)
  {
    hide FindLabel, Little, AllPlaced, LayoutOk, A, Disp, Value, Pow256, Signed;
    var d := A(y, t) - A(y, k + 1);
    RelPlaced(lists, y, out, k);
    LandsFacts(lists, y, k, t, |out|);
    DispHere(lists, y, k, t);
    if y.cuts[k] > 0 {
      Pow256Four();
      SignedOf(d, 1);
    } else {
      Pow256Four();
      LittleValue(d, 4);
      SignedOf(d, 4);
    }
  }

  lemma DispHere(lists: seq<seq<Action>>, y: Layout, k: nat, t: nat)
    requires k < |y.f| && y.f[k].slot in y.b0 && y.b0[y.f[k].slot] > 0
             && FindLabel(lists, y.f, y.b0[y.f[k].slot], 0) == t
    ensures Disp(lists, y, k) == A(y, t) - A(y, k + 1)
  {
  }

  lemma RelPlaced(lists: seq<seq<Action>>, y: Layout, out: seq<nat>, k: nat)
    requires LayoutOk(lists, y) && AllPlaced(lists, y, out, |y.f|) && k < |y.f| && Rel(Act(lists, y.f[k]))
    ensures |out| == A(y, |y.f|) && 0 <= A(y, k) <= A(y, k + 1) <= |out| && k < |y.cuts|
    ensures if y.cuts[k] > 0 then A(y, k + 1) >= 2 && out[A(y, k + 1) - 1] == Disp(lists, y, k) % 256
            else out[A(y, k)..A(y, k + 1)] == Little(Disp(lists, y, k), 4)
  {
    hide Little, A, Disp;
    assert y.f[k] == y.f[k];
    assert Placed(lists, y, out, k, |y.f|);
  }

  lemma Pow256Four()
    ensures Pow256(4) == 0x1_0000_0000 && Pow256(1) == 256
  {
    assert Pow256(2) == 65536;
  }

  lemma LandsFacts(lists: seq<seq<Action>>, y: Layout, k: nat, t: nat, n: nat)
    requires LayoutOk(lists, y) && k < |y.f| && Rel(Act(lists, y.f[k])) && n == A(y, |y.f|) && n < 0x8000_0000
             && k < |y.cuts|
    requires t < |y.f| && y.f[k].slot in y.b0 && y.b0[y.f[k].slot] > 0
             && FindLabel(lists, y.f, y.b0[y.f[k].slot], 0) == t
    ensures -0x8000_0000 <= A(y, t) - A(y, k + 1) < 0x8000_0000
    ensures y.cuts[k] > 0 ==> -128 <= A(y, t) - A(y, k + 1) <= 127
    ensures y.cuts[k] == 0 ==> A(y, k) + 4 == A(y, k + 1) && A(y, k) >= 0
  {
    LongReaches(y.cells, y.cuts, k, t);
    ByteCell(lists, y, k);
    InOrder(lists, y, 0, k);
    if y.cuts[k] > 0 {
      ShrinkSound(y.cells, y.cuts, k);
    }
  }

  lemma PcFacts(lists: seq<seq<Action>>, a: Asm, b0: map<nat, int>, b: map<nat, int>, cuts: seq<nat>, l: Label)
      returns (t: nat)
    requires Ready(lists, a, b0) && Decided(Cells(lists, a, b0), cuts)
             && Words(lists, All(a), Cells(lists, a, b0), cuts, b0, b)
    requires l in a.table.labels && l.Pc? && a.table.labels[l] <= 0
    ensures a.table.labels[l] == 0 ==> LastDef(a.table.log, l) == None
    ensures a.table.labels[l] < 0 ==> LastDef(a.table.log, l) == Some(-a.table.labels[l])
    ensures a.table.labels[l] < 0 ==>
              t < |All(a)| && t < |cuts| && Labels(Act(lists, All(a)[t])) && All(a)[t].slot == -a.table.labels[l]
    ensures a.table.labels[l] < 0 ==> All(a)[t].slot in b && b[All(a)[t].slot] == At(Cells(lists, a, b0), cuts, t)
  {
    hide ListsOk, FixedOk, BelowOk, ItemsHeld, Resolved, LastDef, RefOk, TracesOk;
    assert LabelOk(a.table, l);
    t := 0;
    if a.table.labels[l] < 0 {
      var j := LastDefMeans(a.table.log, l);
      assert a.table.log[j] in a.table.log && EventOk(lists, a, a.table.log[j]);
      var s: nat, i: nat :| LabelHere(lists, a.trace, s, i, -a.table.labels[l], l);
      FlatAt(a.trace, |a.trace|, s, i);
      t := Place(a, s, i);
      CellsLong(lists, a, b0);
      assert WordOk(lists, All(a), Cells(lists, a, b0), cuts, b0, b, t);
    }
  }
}
