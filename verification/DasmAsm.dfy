/** The state of the DynASM encoder in its first pass, and what every action put keeps. */
module DasmAsm {
  import opened DasmLabels
  import opened DasmActions

  /** Position in the buffer and offset estimate of a section. */
  datatype Sec = Sec(pos: nat, ofs: nat)

  /** fixed: the buffer words that are not references, with their values. links: the slots of
      references. trace: the actions put to each section. */
  datatype Asm = Asm(table: Table, fixed: map<nat, int>, links: set<nat>, trace: seq<seq<Item>>, secs: seq<Sec>)

  /** What the buffer and the log of label events have for an action. */
  ghost predicate ItemHeld(lists: seq<seq<Action>>, a: Asm, it: Item) {
    var act := Act(lists, it);
    && (act.Enter? ==> it.slot in a.fixed && a.fixed[it.slot] == it.start)
    && (act.Imm? || act.Space? ==> it.slot in a.fixed && a.fixed[it.slot] == it.arg)
    && (Refers(act) ==> it.slot in a.links && Ref(NameOf(act, it.arg), it.slot, KindOf(act)) in a.table.log)
    && (Rel(act) ==> it.slot + 1 in a.fixed && a.fixed[it.slot + 1] == it.est + 4)
    && (Labels(act) ==>
        it.slot in a.fixed && a.fixed[it.slot] == it.est && Def(NameOf(act, it.arg), it.slot) in a.table.log)
    && (act.Align? ==> it.slot in a.fixed && a.fixed[it.slot] == it.est + act.mask)
  }

  ghost predicate ItemsHeld(lists: seq<seq<Action>>, a: Asm) {
    forall s: nat, k: nat {:trigger a.trace[s][k]} :: s < |a.trace| && k < |a.trace[s]| ==>
        ItemHeld(lists, a, a.trace[s][k])
  }

  ghost predicate FixedOk(a: Asm) {
    forall x {:trigger x in a.fixed} :: x in a.fixed ==> x in a.table.b && a.table.b[x] == a.fixed[x] && x !in a.links
  }

  /** Words in use are below the position of their section. */
  ghost predicate BelowOk(a: Asm) {
    && (forall x {:trigger x in a.fixed} :: x in a.fixed ==> InUse(a, x))
    && (forall x {:trigger x in a.links} :: x in a.links ==> InUse(a, x))
  }

  predicate InUse(a: Asm, x: nat) { x / SEC < |a.secs| && x < a.secs[x / SEC].pos }

  ghost predicate EventOk(lists: seq<seq<Action>>, a: Asm, e: Event) {
    match e
    case Ref(l, slot, kind) => slot in a.links
    case Def(l, slot) => slot in a.fixed && LabelAt(lists, a.trace, slot, l)
    case Forget => true
  }

  ghost predicate EventsOk(lists: seq<seq<Action>>, a: Asm) { forall e <- a.table.log :: EventOk(lists, a, e) }

  /** The label l is put at position x. */
  ghost predicate LabelAt(lists: seq<seq<Action>>, trace: seq<seq<Item>>, x: nat, l: Label) {
    exists s: nat, k: nat :: LabelHere(lists, trace, s, k, x, l)
  }

  ghost predicate LabelHere(lists: seq<seq<Action>>, trace: seq<seq<Item>>, s: nat, k: nat, x: nat, l: Label) {
    && s < |trace| && k < |trace[s]| && trace[s][k].slot == x
    && Labels(Act(lists, trace[s][k])) && NameOf(Act(lists, trace[s][k]), trace[s][k].arg) == l
  }

  ghost predicate TracesOk(lists: seq<seq<Action>>, a: Asm) {
    && |a.secs| == |a.trace|
    && forall s: nat {:trigger a.trace[s]} :: s < |a.trace| ==> SecOk(lists, a, s)
  }

  ghost predicate SecOk(lists: seq<seq<Action>>, a: Asm, s: nat)
    requires s < |a.trace| == |a.secs|
  {
    && Trace(lists, a.trace[s], s) && a.secs[s] == Sec(EndSlot(lists, a.trace[s], s), EndEst(lists, a.trace[s]))
    && a.secs[s].pos < (s + 1) * SEC
  }

  ghost predicate AsmOk(lists: seq<seq<Action>>, a: Asm) {
    ListsOk(lists) && TableOk(a.table) && FixedOk(a) && BelowOk(a) && EventsOk(lists, a) && TracesOk(lists, a)
        && ItemsHeld(lists, a)
  }

  /** The action it can come next in section c. */
  ghost predicate CanPut(lists: seq<seq<Action>>, a: Asm, c: nat, it: Item) {
    && c < |a.secs| == |a.trace|
    && it.slot == a.secs[c].pos && it.est == a.secs[c].ofs && ItemOk(lists, it)
    && it.slot + Slots(Act(lists, it)) < (c + 1) * SEC
    && (if Closed(lists, a.trace[c]) then it.p == 0
        else it.start == a.trace[c][|a.trace[c]| - 1].start && it.p == a.trace[c][|a.trace[c]| - 1].p + 1)
  }

  /** The state with it, given what it makes of labels and buffer. */
  function With(lists: seq<seq<Action>>, a: Asm, c: nat, it: Item, table: Table): Asm
    requires c < |a.secs| && c < |a.trace|
  {
    Asm(table, a.fixed + Content(lists, it), if Refers(Act(lists, it)) then a.links + {it.slot} else a.links,
        a.trace[c := a.trace[c] + [it]],
            a.secs[c := Sec(it.slot + Slots(Act(lists, it)), it.est + Bytes(Act(lists, it), it.arg))])
  }

  /** a2 is a with one more action in section c. */
  ghost predicate Extends(lists: seq<seq<Action>>, a: Asm, c: nat, it: Item, a2: Asm) {
    && CanPut(lists, a, c, it) && a2 == With(lists, a, c, it, a2.table)
    && FixedOk(a2) && TableOk(a2.table)
    && a2.table.log == a.table.log + Events(lists, it)
  }

  /** What putting an action writes to the buffer, but for the reference itself. */
  function Content(lists: seq<seq<Action>>, it: Item): map<nat, int> {
    var act := Act(lists, it);
    if act.Enter? then map[it.slot := it.start]
    else if act.Imm? || act.Space? then map[it.slot := it.arg]
    else if Rel(act) then map[it.slot + 1 := it.est + 4]
    else if Labels(act) then map[it.slot := it.est]
    else if act.Align? then map[it.slot := it.est + act.mask]
    else map[]
  }

  lemma ExtendOk(lists: seq<seq<Action>>, a: Asm, c: nat, it: Item, a2: Asm)
    requires AsmOk(lists, a) && Extends(lists, a, c, it, a2)
    ensures AsmOk(lists, a2)
  {
    hide ListsOk, TableOk, FixedOk, BelowOk, EventsOk, TracesOk, ItemsHeld, Extends;
    ExtendTable(lists, a, c, it, a2);
    ExtendBelow(lists, a, c, it, a2);
    ExtendEvents(lists, a, c, it, a2);
    ExtendTraces(lists, a, c, it, a2);
    ExtendItems(lists, a, c, it, a2);
  }

  lemma ExtendTable(lists: seq<seq<Action>>, a: Asm, c: nat, it: Item, a2: Asm)
    requires Extends(lists, a, c, it, a2)
    ensures FixedOk(a2) && TableOk(a2.table)
  {
  }

  lemma ContentNear(lists: seq<seq<Action>>, it: Item)
    ensures forall x <- Content(lists, it) :: it.slot <= x < it.slot + Slots(Act(lists, it))
    ensures Refers(Act(lists, it)) ==> Slots(Act(lists, it)) > 0
  {
  }

  lemma ExtendBelow(lists: seq<seq<Action>>, a: Asm, c: nat, it: Item, a2: Asm)
    requires AsmOk(lists, a) && Extends(lists, a, c, it, a2)
    ensures BelowOk(a2)
  {
    hide ListsOk, TableOk, FixedOk, EventsOk, ItemsHeld, Content, Events;
    ContentNear(lists, it);
    assert SecOk(lists, a, c);
    StartOfSection(lists, a.trace[c], c);
    forall x | x in a2.fixed ensures InUse(a2, x) {
      if x in a.fixed {
        UseKept(lists, a, c, it, a2, x);
      } else {
        InSection(x, c);
      }
    }
    forall x | x in a2.links ensures InUse(a2, x) {
      if x in a.links {
        UseKept(lists, a, c, it, a2, x);
      } else {
        InSection(x, c);
      }
    }
  }

  lemma StartOfSection(lists: seq<seq<Action>>, t: seq<Item>, sec: nat)
    requires Trace(lists, t, sec)
    ensures sec * SEC <= EndSlot(lists, t, sec)
  {
    if t != [] {
      SlotRange(lists, t, sec, |t| - 1);
    }
  }

  lemma InSection(x: nat, c: nat)
    requires c * SEC <= x < (c + 1) * SEC
    ensures x / SEC == c
  {
  }

  lemma UseKept(lists: seq<seq<Action>>, a: Asm, c: nat, it: Item, a2: Asm, x: nat)
    requires Extends(lists, a, c, it, a2) && InUse(a, x)
    ensures InUse(a2, x)
  {
  }

  lemma ExtendEvents(lists: seq<seq<Action>>, a: Asm, c: nat, it: Item, a2: Asm)
    requires AsmOk(lists, a) && Extends(lists, a, c, it, a2)
    ensures EventsOk(lists, a2)
  {
    hide ListsOk, TableOk, FixedOk, BelowOk, ItemsHeld, LabelAt;
    forall e | e in a2.table.log ensures EventOk(lists, a2, e) {
      if e in a.table.log {
        assert EventOk(lists, a, e);
        if e.Def? {
          LabelKept(lists, a, c, it, a2, e.slot, e.l);
        }
      } else {
        assert e in Events(lists, it);
        NewEvent(lists, a, c, it, a2);
      }
    }
  }

  lemma LabelKept(lists: seq<seq<Action>>, a: Asm, c: nat, it: Item, a2: Asm, x: nat, l: Label)
    requires Extends(lists, a, c, it, a2) && LabelAt(lists, a.trace, x, l)
    ensures LabelAt(lists, a2.trace, x, l)
  {
    var s: nat, k: nat :| LabelHere(lists, a.trace, s, k, x, l);
    assert a2.trace[s][k] == a.trace[s][k];
    assert LabelHere(lists, a2.trace, s, k, x, l);
  }

  lemma NewEvent(lists: seq<seq<Action>>, a: Asm, c: nat, it: Item, a2: Asm)
    requires Extends(lists, a, c, it, a2)
    ensures forall e <- Events(lists, it) :: EventOk(lists, a2, e)
  {
    var k := |a.trace[c]|;
    assert a2.trace[c][k] == it;
    if Labels(Act(lists, it)) {
      assert LabelHere(lists, a2.trace, c, k, it.slot, NameOf(Act(lists, it), it.arg));
      assert it.slot in Content(lists, it);
    }
  }

  lemma ExtendTraces(lists: seq<seq<Action>>, a: Asm, c: nat, it: Item, a2: Asm)
    requires AsmOk(lists, a) && Extends(lists, a, c, it, a2)
    ensures TracesOk(lists, a2)
  {
    hide ListsOk, TableOk, FixedOk, BelowOk, ItemsHeld, EventsOk, Trace;
    assert SecOk(lists, a, c);
    TraceMore(lists, a.trace[c], c, it);
    forall s: nat | s < |a2.trace| ensures SecOk(lists, a2, s) {
      if s != c {
        assert a2.trace[s] == a.trace[s] && SecOk(lists, a, s);
      }
    }
  }

  lemma ExtendItems(lists: seq<seq<Action>>, a: Asm, c: nat, it: Item, a2: Asm)
    requires AsmOk(lists, a) && Extends(lists, a, c, it, a2)
    ensures ItemsHeld(lists, a2)
  {
    hide ListsOk, TableOk, FixedOk, TracesOk, EventsOk, ItemHeld;
    forall s: nat, k: nat | s < |a2.trace| && k < |a2.trace[s]| ensures ItemHeld(lists, a2, a2.trace[s][k]) {
      if s == c && k == |a.trace[c]| {
        NewHeld(lists, a, c, it, a2);
      } else {
        assert a2.trace[s][k] == a.trace[s][k];
        HeldKept(lists, a, c, it, a2, a.trace[s][k]);
      }
    }
  }

  lemma NewHeld(lists: seq<seq<Action>>, a: Asm, c: nat, it: Item, a2: Asm)
    requires Extends(lists, a, c, it, a2)
    ensures ItemHeld(lists, a2, it)
  {
    var act := Act(lists, it);
    assert Refers(act) || Labels(act) ==> Events(lists, it)[0] in Events(lists, it);
    assert Rel(act) ==> it.slot + 1 in Content(lists, it);
    assert !Rel(act) && !Refers(act) && !act.Byte? && !Ends(act) ==> it.slot in Content(lists, it);
  }

  lemma HeldKept(lists: seq<seq<Action>>, a: Asm, c: nat, it: Item, a2: Asm, old_: Item)
    requires AsmOk(lists, a) && Extends(lists, a, c, it, a2) && ItemHeld(lists, a, old_)
    ensures ItemHeld(lists, a2, old_)
  {
    hide ListsOk, TableOk, FixedOk, TracesOk, EventsOk, ItemsHeld, Content, Events;
    ContentNear(lists, it);
    forall x | x in a.fixed ensures x !in Content(lists, it) {
      NotNear(lists, a, c, it, a2, x);
    }
  }

  lemma NotNear(lists: seq<seq<Action>>, a: Asm, c: nat, it: Item, a2: Asm, x: nat)
    requires AsmOk(lists, a) && Extends(lists, a, c, it, a2) && InUse(a, x)
    ensures !(it.slot <= x < it.slot + Slots(Act(lists, it)))
  {
    hide ListsOk, TableOk, FixedOk, EventsOk, ItemsHeld, Content, Events, BelowOk;
    assert SecOk(lists, a, c);
    StartOfSection(lists, a.trace[c], c);
    if it.slot <= x < it.slot + Slots(Act(lists, it)) {
      InSection(x, c);
    }
  }

  /** Words from the section's position on are free. */
  lemma FreshSlot(lists: seq<seq<Action>>, a: Asm, c: nat, y: nat)
    requires AsmOk(lists, a) && c < |a.secs| && a.secs[c].pos <= y < (c + 1) * SEC
    ensures Unslotted(a.table, y) && y !in a.fixed && y !in a.links && c * SEC <= a.secs[c].pos
  {
    hide ListsOk, TableOk, FixedOk, ItemsHeld, LabelAt;
    assert SecOk(lists, a, c);
    StartOfSection(lists, a.trace[c], c);
    InSection(y, c);
    assert !InUse(a, y);
    forall i: nat | i < |a.table.log| && !a.table.log[i].Forget? ensures a.table.log[i].slot != y {
      assert a.table.log[i] in a.table.log && EventOk(lists, a, a.table.log[i]);
    }
  }

  /** An action put with its label event and its words leaves the state well-formed. */
  lemma PutOk(lists: seq<seq<Action>>, a: Asm, c: nat, it: Item, table: Table)
    requires AsmOk(lists, a) && CanPut(lists, a, c, it) && TableOk(table)
    requires table.log == a.table.log + Events(lists, it)
    requires forall x {:trigger x in a.fixed} :: x in a.fixed ==> x in table.b && table.b[x] == a.fixed[x]
    requires forall x {:trigger x in Content(lists, it)} :: x in Content(lists, it) ==>
               x in table.b && table.b[x] == Content(lists, it)[x]
    ensures AsmOk(lists, With(lists, a, c, it, table))
  {
    hide ListsOk, TableOk, BelowOk, EventsOk, TracesOk, ItemsHeld, Content, Events;
    ContentNear(lists, it);
    var a2 := With(lists, a, c, it, table);
    forall x | x in a2.fixed ensures x in a2.table.b && a2.table.b[x] == a2.fixed[x] && x !in a2.links {
      if x in Content(lists, it) {
        FreshSlot(lists, a, c, x);
        ContentNotLink(lists, it);
      } else {
        OldNotNew(lists, a, c, it, x);
      }
    }
    ExtendOk(lists, a, c, it, a2);
  }

  lemma ContentNotLink(lists: seq<seq<Action>>, it: Item)
    ensures Refers(Act(lists, it)) ==> it.slot !in Content(lists, it)
  {
  }

  lemma OldNotNew(lists: seq<seq<Action>>, a: Asm, c: nat, it: Item, x: nat)
    requires AsmOk(lists, a) && CanPut(lists, a, c, it) && (x in a.fixed || x in a.links)
    ensures !(it.slot <= x < it.slot + Slots(Act(lists, it)))
            && (x in a.fixed ==> x in a.table.b && a.table.b[x] == a.fixed[x] && x !in a.links)
  {
    hide ListsOk, TableOk, EventsOk, TracesOk, ItemsHeld, Act, ItemOk, Closed;
    if it.slot <= x < it.slot + Slots(Act(lists, it)) {
      FreshSlot(lists, a, c, x);
    }
  }

  /** An action without label. */
  lemma PutPlainOk(lists: seq<seq<Action>>, a: Asm, c: nat, it: Item)
    requires AsmOk(lists, a) && CanPut(lists, a, c, it) && !Refers(Act(lists, it)) && !Labels(Act(lists, it))
    ensures AsmOk(lists, With(lists, a, c, it, a.table.(b := a.table.b + Content(lists, it))))
  {
    hide ListsOk, TableOk, BelowOk, EventsOk, TracesOk, ItemsHeld;
    var content := Content(lists, it);
    var table := a.table.(b := a.table.b + content);
    ContentNear(lists, it);
    if content != map[] {
      FreshSlot(lists, a, c, it.slot);
      TableFrame(a.table, it.slot, content[it.slot]);
      assert table == a.table.(b := a.table.b[it.slot := content[it.slot]]);
    } else {
      assert a.table.b + content == a.table.b;
    }
    forall x | x in a.fixed ensures x in table.b && table.b[x] == a.fixed[x] {
      OldNotNew(lists, a, c, it, x);
    }
    PutOk(lists, a, c, it, table);
  }

  /** A reference, chained or pointed to its label: table1; with the estimate behind it. */
  lemma PutRefOk(lists: seq<seq<Action>>, a: Asm, c: nat, it: Item, table1: Table)
    requires AsmOk(lists, a) && CanPut(lists, a, c, it) && Refers(Act(lists, it)) && TableOk(table1)
    requires it.slot in table1.b && table1.b == a.table.b[it.slot := table1.b[it.slot]]
             && table1.log == a.table.log + Events(lists, it)
    ensures AsmOk(lists, With(lists, a, c, it, table1.(b := table1.b + Content(lists, it))))
  {
    hide ListsOk, TableOk, BelowOk, EventsOk, TracesOk, ItemsHeld;
    var content := Content(lists, it);
    var table := table1.(b := table1.b + content);
    ContentNear(lists, it);
    if Rel(Act(lists, it)) {
      FreshSlot(lists, a, c, it.slot + 1);
      RefFrame(lists, a, it, table1);
      TableFrame(table1, it.slot + 1, it.est + 4);
      assert table == table1.(b := table1.b[it.slot + 1 := it.est + 4]);
    } else {
      assert table1.b + content == table1.b;
    }
    forall x | x in a.fixed ensures x in table.b && table.b[x] == a.fixed[x] {
      OldNotNew(lists, a, c, it, x);
    }
    PutOk(lists, a, c, it, table);
  }

  lemma RefFrame(lists: seq<seq<Action>>, a: Asm, it: Item, table1: Table)
    requires Refers(Act(lists, it)) && table1.log == a.table.log + Events(lists, it) && Unslotted(a.table, it.slot + 1)
    ensures Unslotted(table1, it.slot + 1)
  {
    forall i: nat | i < |table1.log| && !table1.log[i].Forget? ensures table1.log[i].slot != it.slot + 1 {
      if i < |a.table.log| {
        assert table1.log[i] == a.table.log[i];
      }
    }
  }

  /** A label, its chain collapsed in the buffer b2. */
  lemma PutLabelOk(lists: seq<seq<Action>>, a: Asm, c: nat, it: Item, b2: map<nat, int>)
    requires AsmOk(lists, a) && CanPut(lists, a, c, it) && Labels(Act(lists, it)) && it.slot > 0
    requires var l := NameOf(Act(lists, it), it.arg);
             l in a.table.labels && l in a.table.chain && Collapsed(a.table, l, it.slot, b2)
    ensures AsmOk(lists,
                  With(lists, a, c, it,
                       Defined(a.table, NameOf(Act(lists, it), it.arg), it.slot, b2[it.slot := it.est])))
  {
    hide ListsOk, TableOk, BelowOk, EventsOk, TracesOk, ItemsHeld, Defined;
    var l := NameOf(Act(lists, it), it.arg);
    ContentNear(lists, it);
    FreshSlot(lists, a, c, it.slot);
    var t1 := a.table.(b := a.table.b[it.slot := it.est]);
    TableFrame(a.table, it.slot, it.est);
    ChainFree(a.table, l, it.slot);
    LabelCollapsed(a.table, l, it.slot, it.est, b2);
    DefOk(t1, l, it.slot, b2[it.slot := it.est]);
    var table := Defined(a.table, l, it.slot, b2[it.slot := it.est]);
    DefinedIs(a.table, t1, l, it.slot, b2[it.slot := it.est]);
    forall x | x in a.fixed ensures x in table.b && table.b[x] == a.fixed[x] {
      OldNotNew(lists, a, c, it, x);
      FixedNotChained(lists, a, l, x);
    }
    PutOk(lists, a, c, it, table);
  }

  lemma ChainFree(t: Table, l: Label, x: nat)
    requires TableOk(t) && l in t.chain && Unslotted(t, x)
    ensures x !in t.chain[l]
  {
    OnChain(t, l);
  }

  lemma LabelCollapsed(t: Table, l: Label, x: nat, v: int, b2: map<nat, int>)
    requires l in t.chain && x !in t.chain[l] && Collapsed(t, l, x, b2)
    ensures Collapsed(t.(b := t.b[x := v]), l, x, b2[x := v])
  {
  }

  lemma DefinedIs(t: Table, t1: Table, l: Label, x: nat, b2: map<nat, int>)
    requires t1.labels == t.labels && t1.log == t.log && t1.chain == t.chain
    ensures Defined(t1, l, x, b2) == Defined(t, l, x, b2)
    ensures Defined(t, l, x, b2).log == t.log + [Def(l, x)] && Defined(t, l, x, b2).b == b2
  {
  }

  lemma FixedNotChained(lists: seq<seq<Action>>, a: Asm, l: Label, x: nat)
    requires AsmOk(lists, a) && l in a.table.chain && x in a.fixed
    ensures x !in a.table.chain[l]
  {
    hide ListsOk, BelowOk, TracesOk, ItemsHeld, LabelOk, RefOk, Resolve;
    OnChain(a.table, l);
    assert forall i: nat :: i < |a.table.log| && a.table.log[i].Ref? ==> EventOk(lists, a, a.table.log[i]);
  }
}
