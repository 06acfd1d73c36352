/** Labels of the DynASM encoder: how references are chained through the position buffer and
    bound to definitions. */
module DasmLabels {

  /** A local (1 to 9) or global (10 and up) label, or a PC label. */
  datatype Label = Lg(i: nat) | Pc(i: nat)

  predicate Local(l: Label) { l.Lg? && 0 < l.i < 10 }

  /** <n: the latest definition. >n: the next one. Other labels: the one there is. */
  datatype Kind = Back | Forward | Either

  /** What has happened to labels so far, in order. Forget: dasm_checkstep clears local labels. */
  datatype Event = Def(l: Label, slot: nat) | Ref(l: Label, slot: nat, kind: Kind) | Forget

  datatype Option<T> = None | Some(value: T)

  // ----- what a reference means -----------------------------------------------------------

  /** The definition of l that counts at the end of the log. */
  function LastDef(log: seq<Event>, l: Label): Option<nat> {
    if log == [] then None
    else
      var e := log[|log| - 1];
      if e.Def? && e.l == l then Some(e.slot)
      else if e.Forget? && Local(l) then None
      else LastDef(log[..|log| - 1], l)
  }

  /** The first definition of l from i on. */
  function FirstDef(log: seq<Event>, i: nat, l: Label): Option<nat>
    decreases |log| - i
  {
    if i >= |log| then None
    else if log[i].Def? && log[i].l == l then Some(log[i].slot)
    else FirstDef(log, i + 1, l)
  }

  /** The definition that reference i names, if there is one yet. */
  function Resolve(log: seq<Event>, i: nat): Option<nat>
    requires i < |log| && log[i].Ref?
  {
    var l := log[i].l;
    match log[i].kind
    case Back => LastDef(log[..i], l)
    case Forward => FirstDef(log, i + 1, l)
    case Either => if LastDef(log[..i], l).Some? then LastDef(log[..i], l) else FirstDef(log, i + 1, l)
  }

  lemma {:induction false} FirstDefMore(log: seq<Event>, i: nat, l: Label, e: Event)
    requires i <= |log|
    ensures FirstDef(log + [e], i, l)
         == if FirstDef(log, i, l).Some? then FirstDef(log, i, l) else if e.Def? && e.l == l then Some(e.slot) else None
    decreases |log| - i
  {
    if i < |log| {
      FirstDefMore(log, i + 1, l, e);
    } else {
      assert (log + [e])[i] == e;
      assert FirstDef(log + [e], i + 1, l) == None;
    }
  }

  /** A later event binds the references that were open, if it is the definition they name, and
      changes nothing for the others. */
  lemma ResolveMore(log: seq<Event>, i: nat, e: Event)
    requires i < |log| && log[i].Ref?
    ensures Resolve(log + [e], i)
         == if Resolve(log, i).Some? || log[i].kind.Back? then Resolve(log, i)
            else if e.Def? && e.l == log[i].l then Some(e.slot) else None
  {
    assert (log + [e])[..i] == log[..i];
    FirstDefMore(log, i + 1, log[i].l, e);
  }

  // ----- what the encoder keeps ------------------------------------------------------------

  /** labels: the label arrays: the position of the definition, negated, or of the latest open
      reference. Open references form a chain through the buffer, down to 0. */
  datatype Table = Table(labels: map<Label, int>, b: map<nat, int>, log: seq<Event>, chain: map<Label, seq<nat>>)

  /** The chain of l: slots of open references, latest first, each holding the next. */
  ghost predicate Chained(t: Table, l: Label)
    requires l in t.labels && l in t.chain
  {
    var c := t.chain[l];
    && (t.labels[l] > 0 <==> c != []) && (c != [] ==> t.labels[l] == c[0])
    && (forall k {:trigger c[k]} :: 0 <= k < |c| ==> c[k] > 0 && c[k] in t.b && t.b[c[k]] == if k + 1 < |c|
        then c[k + 1] else 0)
    && (forall j, k {:trigger c[j], c[k]} :: 0 <= j < k < |c| ==> c[j] != c[k])
  }

  ghost predicate LabelOk(t: Table, l: Label)
    requires l in t.labels && l in t.chain
  {
    && Chained(t, l)
    && (t.labels[l] < 0 ==> LastDef(t.log, l) == Some(-t.labels[l]))
    && (t.labels[l] == 0 ==> LastDef(t.log, l) == None)
    && (t.labels[l] > 0 && !Local(l) ==> LastDef(t.log, l) == None)
  }

  /** Reference i is bound: its slot holds the position of its definition; or it is open. */
  ghost predicate RefOk(t: Table, i: nat)
    requires i < |t.log| && t.log[i].Ref?
  {
    var e := t.log[i];
    && e.l in t.labels && e.l in t.chain && e.slot > 0 && (e.kind.Forward? ==> Local(e.l))
    && (e.kind.Either? ==> !Local(e.l))
    && e.slot in t.b
    && (e.kind.Back? ==> Resolve(t.log, i).Some?)
    && match Resolve(t.log, i)
       case Some(d) => t.b[e.slot] == d
       case None => e.slot in t.chain[e.l]
  }

  /** The slots on chains are those of references to that label. */
  ghost predicate ChainIsRefs(t: Table) {
    forall l, x {:trigger l in t.chain, x in t.chain[l]} :: l in t.chain && x in t.chain[l] ==> OpenRef(t, l, x)
  }

  ghost predicate OpenRef(t: Table, l: Label, x: nat) {
    exists i :: 0 <= i < |t.log| && t.log[i].Ref? && t.log[i].l == l && t.log[i].slot == x && Resolve(t.log, i).None?
  }

  ghost predicate SlotsApart(log: seq<Event>) {
    forall i, j {:trigger log[i], log[j]} :: 0 <= i < j < |log| && !log[i].Forget? && !log[j].Forget? ==>
        log[i].slot != log[j].slot
  }

  ghost predicate TableOk(t: Table) {
    && t.labels.Keys == t.chain.Keys && SlotsApart(t.log) && ChainIsRefs(t)
    && (forall l {:trigger l in t.labels} :: l in t.labels ==> LabelOk(t, l))
    && (forall i: nat {:trigger t.log[i]} :: i < |t.log| && t.log[i].Ref? ==> RefOk(t, i))
    && (forall i: nat {:trigger t.log[i]} :: i < |t.log| && t.log[i].Def? ==>
        t.log[i].slot > 0 && t.log[i].l in t.labels)
  }

  /** No event so far has this slot. */
  ghost predicate Unslotted(t: Table, x: nat) {
    forall i: nat {:trigger t.log[i]} :: i < |t.log| && !t.log[i].Forget? ==> t.log[i].slot != x
  }

  ghost predicate NewSlot(t: Table, x: nat) { x > 0 && Unslotted(t, x) }

  /** The table after a reference to l at x, when l has no definition to point to: it is chained. */
  function Linked(t: Table, l: Label, x: nat, kind: Kind): Table
    requires l in t.labels && l in t.chain
  {
    var n := if t.labels[l] < 0 then 0 else t.labels[l];
    Table(t.labels[l := x], t.b[x := n], t.log + [Ref(l, x, kind)], t.chain[l := [x] + t.chain[l]])
  }

  /** The table after a reference to l at x, when l is defined. */
  function Pointed(t: Table, l: Label, x: nat, kind: Kind): Table
    requires l in t.labels
  {
    Table(t.labels, t.b[x := -t.labels[l]], t.log + [Ref(l, x, kind)], t.chain)
  }

  // ----- each step keeps it ----------------------------------------------------------------

  lemma LastDefMore(log: seq<Event>, l: Label, e: Event)
    ensures LastDef(log + [e], l)
         == if e.Def? && e.l == l then Some(e.slot) else if e.Forget? && Local(l) then None else LastDef(log, l)
  {
    assert (log + [e])[..|log|] == log;
  }

  lemma NewIsOpen(log: seq<Event>, e: Event)
    requires e.Ref?
    ensures Resolve(log + [e], |log|) == if e.kind.Forward? then None else LastDef(log, e.l)
  {
    assert (log + [e])[..|log|] == log;
    assert FirstDef(log + [e], |log| + 1, e.l) == None;
  }

  /** The slots of events are apart when a new one comes. */
  lemma SlotsMore(t: Table, e: Event)
    requires SlotsApart(t.log) && (e.Forget? || NewSlot(t, e.slot))
    ensures SlotsApart(t.log + [e])
  {
    var log := t.log + [e];
    forall i, j | 0 <= i < j < |log| && !log[i].Forget? && !log[j].Forget? ensures log[i].slot != log[j].slot {
      if j < |t.log| {
        assert t.log[i] == log[i] && t.log[j] == log[j];
      } else {
        assert t.log[i] == log[i];
      }
    }
  }

  /** A slot on a chain is that of a reference, so a new slot is on none. */
  lemma ChainHasNot(t: Table, l: Label, x: nat)
    requires TableOk(t) && NewSlot(t, x) && l in t.chain
    ensures x !in t.chain[l]
  {
    assert x in t.chain[l] ==> OpenRef(t, l, x);
  }

  /** The chains of different labels have no slot in common. */
  lemma ChainsApart(t: Table, l: Label, m: Label, x: nat)
    requires TableOk(t) && l in t.chain && m in t.chain && x in t.chain[l] && x in t.chain[m]
    ensures l == m
  {
    hide LabelOk, RefOk, Resolve;
    assert OpenRef(t, l, x) && OpenRef(t, m, x);
    var i :| 0 <= i < |t.log| && t.log[i].Ref? && t.log[i].l == l && t.log[i].slot == x && Resolve(t.log, i).None?;
    var j :| 0 <= j < |t.log| && t.log[j].Ref? && t.log[j].l == m && t.log[j].slot == x && Resolve(t.log, j).None?;
    assert i == j;
  }

  /** A label stays as it is while its entry, its chain and the words on it do. */
  lemma LabelSame(t: Table, t2: Table, m: Label)
    requires m in t.labels && m in t.chain && LabelOk(t, m) && m in t2.labels && m in t2.chain
    requires t2.labels[m] == t.labels[m] && t2.chain[m] == t.chain[m] && LastDef(t2.log, m) == LastDef(t.log, m)
    requires forall x <- t.chain[m] :: x in t.b && x in t2.b && t2.b[x] == t.b[x]
    ensures LabelOk(t2, m)
  {
    hide LastDef;
  }

  /** The slots of a chain are in the buffer and belong to references. */
  lemma OnChain(t: Table, m: Label)
    requires TableOk(t) && m in t.chain
    ensures m in t.labels && LabelOk(t, m) && forall x <- t.chain[m] :: x in t.b && OpenRef(t, m, x)
  {
    hide RefOk, LastDef, Resolve;
    assert m in t.labels && LabelOk(t, m);
    forall x | x in t.chain[m] ensures x in t.b && OpenRef(t, m, x) {
      var k :| 0 <= k < |t.chain[m]| && t.chain[m][k] == x;
    }
  }

  lemma LinkOk(t: Table, l: Label, x: nat, kind: Kind)
    requires TableOk(t) && l in t.labels && NewSlot(t, x)
    requires if kind.Forward? then Local(l) else kind.Either? && !Local(l) && t.labels[l] >= 0
    ensures l in t.chain && TableOk(Linked(t, l, x, kind))
  {
    var t2 := Linked(t, l, x, kind);
    var e := Ref(l, x, kind);
    SlotsMore(t, e);
    LinkChains(t, l, x, kind);
    forall m | m in t2.labels ensures LabelOk(t2, m) {
      LinkLabel(t, l, x, kind, m);
    }
    forall i: nat | i < |t2.log| && t2.log[i].Ref? ensures RefOk(t2, i) {
      LinkRef(t, l, x, kind, i);
    }
    forall i: nat | i < |t2.log| && t2.log[i].Def? ensures t2.log[i].slot > 0 && t2.log[i].l in t2.labels {
      assert t2.log[i] == t.log[i];
    }
  }

  lemma LinkChains(t: Table, l: Label, x: nat, kind: Kind)
    requires TableOk(t) && l in t.labels && l in t.chain && NewSlot(t, x)
    requires if kind.Forward? then Local(l) else kind.Either? && !Local(l) && t.labels[l] >= 0
    ensures ChainIsRefs(Linked(t, l, x, kind))
  {
    hide RefOk, Resolve, LastDef;
    var t2 := Linked(t, l, x, kind);
    var e := Ref(l, x, kind);
    assert LabelOk(t, l);
    forall m, y | m in t2.chain && y in t2.chain[m] ensures OpenRef(t2, m, y) {
      if m == l && y == x {
        NewIsOpen(t.log, e);
        assert t2.log[|t.log|] == e;
      } else {
        assert OpenRef(t, m, y);
        var i: nat :| i < |t.log| && t.log[i].Ref? && t.log[i].l == m && t.log[i].slot == y && Resolve(t.log, i).None?;
        ResolveMore(t.log, i, e);
        assert t2.log[i] == t.log[i];
      }
    }
  }

  lemma SlotPositive(t: Table, x: nat)
    requires NewSlot(t, x)
    ensures x > 0
  {
  }

  lemma LinkLabel(t: Table, l: Label, x: nat, kind: Kind, m: Label)
    requires TableOk(t) && l in t.labels && l in t.chain && NewSlot(t, x) && m in t.labels && m in t.chain
    requires if kind.Forward? then Local(l) else kind.Either? && !Local(l) && t.labels[l] >= 0
    ensures LabelOk(Linked(t, l, x, kind), m)
  {
    hide RefOk, Resolve, LastDef, ChainIsRefs, SlotsApart, NewSlot;
    var t2 := Linked(t, l, x, kind);
    LastDefMore(t.log, m, Ref(l, x, kind));
    assert LabelOk(t, m);
    SlotPositive(t, x);
    ChainHasNot(t, m, x);
    if m == l {
      LinkHead(t, l, x, kind);
    }
  }

  lemma LinkHead(t: Table, l: Label, x: nat, kind: Kind)
    requires l in t.labels && l in t.chain && Chained(t, l) && x > 0 && x !in t.chain[l]
    ensures Chained(Linked(t, l, x, kind), l)
  {
    var t2 := Linked(t, l, x, kind);
    var c := t.chain[l];
    var c2 := t2.chain[l];
    assert c2[0] == x && t2.b[x] == if 1 < |c2| then c2[1] else 0;
    forall k | 0 <= k < |c2|
      ensures c2[k] > 0 && c2[k] in t2.b && t2.b[c2[k]] == if k + 1 < |c2| then c2[k + 1] else 0 {
      if k > 0 {
        assert c2[k] == c[k - 1];
      }
    }
    forall j, k | 0 <= j < k < |c2| ensures c2[j] != c2[k] {
      assert c2[k] == c[k - 1];
      if j > 0 {
        assert c2[j] == c[j - 1];
      }
    }
  }

  lemma LinkRef(t: Table, l: Label, x: nat, kind: Kind, i: nat)
    requires TableOk(t) && l in t.labels && l in t.chain && NewSlot(t, x) && i <= |t.log|
    requires if kind.Forward? then Local(l) else kind.Either? && !Local(l) && t.labels[l] >= 0
    requires Linked(t, l, x, kind).log[i].Ref?
    ensures RefOk(Linked(t, l, x, kind), i)
  {
    hide Resolve, LastDef, ChainIsRefs;
    var e := Ref(l, x, kind);
    if i == |t.log| {
      NewIsOpen(t.log, e);
      assert LabelOk(t, l);
    } else {
      assert t.log[i] == Linked(t, l, x, kind).log[i];
      assert RefOk(t, i);
      ResolveMore(t.log, i, e);
    }
  }

  lemma PointOk(t: Table, l: Label, x: nat, kind: Kind)
    requires TableOk(t) && l in t.labels && NewSlot(t, x) && t.labels[l] < 0
    requires if Local(l) then kind.Back? else kind.Either?
    ensures TableOk(Pointed(t, l, x, kind))
  {
    hide LastDef, Resolve;
    var t2 := Pointed(t, l, x, kind);
    var e := Ref(l, x, kind);
    SlotsMore(t, e);
    forall m, y | m in t2.chain && y in t2.chain[m] ensures OpenRef(t2, m, y) {
      assert OpenRef(t, m, y);
      var i: nat :| i < |t.log| && t.log[i].Ref? && t.log[i].l == m && t.log[i].slot == y && Resolve(t.log, i).None?;
      ResolveMore(t.log, i, e);
      assert t2.log[i] == t.log[i];
    }
    forall m | m in t2.labels ensures LabelOk(t2, m) {
      LastDefMore(t.log, m, e);
      assert LabelOk(t, m);
      ChainHasNot(t, m, x);
    }
    forall i: nat | i < |t2.log| && t2.log[i].Ref? ensures RefOk(t2, i) {
      if i == |t.log| {
        NewIsOpen(t.log, e);
        assert LabelOk(t, l);
      } else {
        assert t.log[i] == t2.log[i] && RefOk(t, i);
        ResolveMore(t.log, i, e);
      }
    }
    forall i: nat | i < |t2.log| && t2.log[i].Def? ensures t2.log[i].slot > 0 && t2.log[i].l in t2.labels {
      assert t2.log[i] == t.log[i];
    }
  }

  /** The table after l is defined at x, with the buffer b2 that collapsing its chain leaves. */
  function Defined(t: Table, l: Label, x: nat, b2: map<nat, int>): Table {
    var pos: int := x;
    Table(t.labels[l := -pos], b2, t.log + [Def(l, x)], t.chain[l := []])
  }

  /** Every slot on the chain of l holds x now; nothing else has changed. */
  ghost predicate Collapsed(t: Table, l: Label, x: int, b2: map<nat, int>)
    requires l in t.chain
  {
    forall y: nat {:trigger y in b2} {:trigger y in t.b} :: y in t.b ==> y in b2 && b2[y] == if y in t.chain[l] then x
        else t.b[y]
  }

  lemma DefOk(t: Table, l: Label, x: nat, b2: map<nat, int>)
    requires TableOk(t) && l in t.labels && l in t.chain && NewSlot(t, x) && Collapsed(t, l, x, b2)
    ensures TableOk(Defined(t, l, x, b2))
  {
    hide LastDef, Resolve, Collapsed, LabelOk, RefOk, ChainIsRefs;
    var t2 := Defined(t, l, x, b2);
    SlotsMore(t, Def(l, x));
    DefChains(t, l, x, b2);
    forall m | m in t2.labels ensures LabelOk(t2, m) {
      DefLabel(t, l, x, b2, m);
    }
    forall i: nat | i < |t2.log| && t2.log[i].Ref? ensures RefOk(t2, i) {
      assert t.log[i] == t2.log[i];
      DefRef(t, l, x, b2, i);
    }
    forall i: nat | i < |t2.log| && t2.log[i].Def? ensures t2.log[i].slot > 0 && t2.log[i].l in t2.labels {
      if i < |t.log| {
        assert t2.log[i] == t.log[i];
      }
    }
  }

  lemma DefChains(t: Table, l: Label, x: nat, b2: map<nat, int>)
    requires TableOk(t) && l in t.labels && l in t.chain
    ensures ChainIsRefs(Defined(t, l, x, b2))
  {
    hide LastDef, Resolve, LabelOk, RefOk, SlotsApart;
    var t2 := Defined(t, l, x, b2);
    forall m, y | m in t2.chain && y in t2.chain[m] ensures OpenRef(t2, m, y) {
      assert m != l && OpenRef(t, m, y);
      var i: nat :| i < |t.log| && t.log[i].Ref? && t.log[i].l == m && t.log[i].slot == y && Resolve(t.log, i).None?;
      ResolveMore(t.log, i, Def(l, x));
      assert t2.log[i] == t.log[i];
    }
  }

  lemma DefLabel(t: Table, l: Label, x: nat, b2: map<nat, int>, m: Label)
    requires TableOk(t) && l in t.labels && l in t.chain && NewSlot(t, x) && Collapsed(t, l, x, b2) && m in t.labels
             && m in t.chain
    ensures LabelOk(Defined(t, l, x, b2), m)
  {
    hide RefOk, Resolve, LastDef, SlotsApart, LabelOk;
    SlotPositive(t, x);
    LastDefMore(t.log, m, Def(l, x));
    OnChain(t, m);
    if m != l {
      forall y | y in t.chain[m] ensures y in b2 && b2[y] == t.b[y] {
        if y in t.chain[l] {
          ChainsApart(t, l, m, y);
        }
      }
      LabelSame(t, Defined(t, l, x, b2), m);
    } else {
      DefHere(t, l, x, b2);
    }
  }

  lemma DefHere(t: Table, l: Label, x: nat, b2: map<nat, int>)
    requires l in t.labels && l in t.chain && x > 0 && LastDef(t.log + [Def(l, x)], l) == Some(x)
    ensures LabelOk(Defined(t, l, x, b2), l)
  {
    hide LastDef;
  }

  lemma DefRef(t: Table, l: Label, x: nat, b2: map<nat, int>, i: nat)
    requires TableOk(t) && l in t.labels && l in t.chain && NewSlot(t, x) && Collapsed(t, l, x, b2)
    requires i < |t.log| && t.log[i].Ref?
    ensures RefOk(Defined(t, l, x, b2), i)
  {
    hide Resolve, LastDef, LabelOk;
    assert RefOk(t, i);
    ResolveMore(t.log, i, Def(l, x));
  }

  /** dasm_checkstep clears the local labels when none is open. */
  lemma ForgetOk(t: Table, labels2: map<Label, int>)
    requires TableOk(t) && (forall l {:trigger l in t.labels} :: l in t.labels && Local(l) ==> t.labels[l] <= 0)
    requires labels2.Keys == t.labels.Keys
    requires forall l {:trigger l in labels2} :: l in labels2 ==> labels2[l] == if Local(l) then 0 else t.labels[l]
    ensures TableOk(Table(labels2, t.b, t.log + [Forget], t.chain))
  {
    hide LastDef, Resolve;
    var t2 := Table(labels2, t.b, t.log + [Forget], t.chain);
    SlotsMore(t, Forget);
    forall m, y | m in t2.chain && y in t2.chain[m] ensures OpenRef(t2, m, y) {
      assert OpenRef(t, m, y);
      var i: nat :| i < |t.log| && t.log[i].Ref? && t.log[i].l == m && t.log[i].slot == y && Resolve(t.log, i).None?;
      ResolveMore(t.log, i, Forget);
      assert t2.log[i] == t.log[i];
    }
    forall m | m in t2.labels ensures LabelOk(t2, m) {
      LastDefMore(t.log, m, Forget);
      assert m in t.labels && LabelOk(t, m);
    }
    forall i: nat | i < |t2.log| && t2.log[i].Ref? ensures RefOk(t2, i) {
      assert t.log[i] == t2.log[i] && RefOk(t, i);
      ResolveMore(t.log, i, Forget);
    }
    forall i: nat | i < |t2.log| && t2.log[i].Def? ensures t2.log[i].slot > 0 && t2.log[i].l in t2.labels {
      assert t2.log[i] == t.log[i];
    }
  }

  /** When no label is open, every reference slot holds the position of the definition it names. */
  lemma AllBound(t: Table, i: nat)
    requires TableOk(t) && i < |t.log| && t.log[i].Ref? && t.log[i].l in t.labels && t.labels[t.log[i].l] <= 0
    ensures Resolve(t.log, i).Some? && t.log[i].slot in t.b && t.b[t.log[i].slot] == Resolve(t.log, i).value
  {
    assert RefOk(t, i);
    var l := t.log[i].l;
    assert l in t.chain && LabelOk(t, l) && Chained(t, l);
    assert t.chain[l] == [];
  }

  /** Writing a word that no event has a slot at changes nothing for labels. */
  lemma TableFrame(t: Table, y: nat, v: int)
    requires TableOk(t) && Unslotted(t, y)
    ensures TableOk(t.(b := t.b[y := v]))
  {
    hide LastDef, Resolve, LabelOk;
    var t2 := t.(b := t.b[y := v]);
    forall m, x | m in t2.chain && x in t2.chain[m] ensures OpenRef(t2, m, x) {
      assert OpenRef(t, m, x);
    }
    forall m | m in t2.labels ensures LabelOk(t2, m) {
      FrameLabel(t, y, v, m);
    }
    forall i: nat | i < |t2.log| && t2.log[i].Ref? ensures RefOk(t2, i) {
      assert RefOk(t, i);
    }
  }

  lemma FrameLabel(t: Table, y: nat, v: int, m: Label)
    requires TableOk(t) && Unslotted(t, y) && m in t.labels && m in t.chain
    ensures LabelOk(t.(b := t.b[y := v]), m)
  {
    hide LastDef, Resolve, RefOk, LabelOk;
    OnChain(t, m);
    LabelSame(t, t.(b := t.b[y := v]), m);
  }

  /** The slots on chains have been written. */
  lemma ChainWords(t: Table, l: Label)
    requires TableOk(t) && l in t.labels && l in t.chain
    ensures Chained(t, l)
  {
    assert LabelOk(t, l);
  }

  /** The table after a reference. */
  function Attached(t: Table, l: Label, x: nat, kind: Kind): Table
    requires l in t.labels && l in t.chain
  {
    if t.labels[l] < 0 && !kind.Forward? then Pointed(t, l, x, kind) else Linked(t, l, x, kind)
  }

  lemma AttachOk(t: Table, l: Label, x: nat, kind: Kind)
    requires TableOk(t) && l in t.labels && l in t.chain && NewSlot(t, x)
    requires if Local(l) then kind.Forward? || (kind.Back? && t.labels[l] < 0) else kind.Either?
    ensures var t2 := Attached(t, l, x, kind);
            TableOk(t2) && x in t2.b && t2.b == t.b[x := t2.b[x]] && t2.log == t.log + [Ref(l, x, kind)]
  {
    if t.labels[l] < 0 && !kind.Forward? {
      PointOk(t, l, x, kind);
    } else {
      LinkOk(t, l, x, kind);
    }
  }

  // ----- the meaning of the definitions ----------------------------------------------------------

  /** LastDef finds a definition after which there is no other, and for locals no Forget. */
  lemma {:induction false} LastDefMeans(log: seq<Event>, l: Label) returns (j: nat)
    requires LastDef(log, l).Some?
    ensures j < |log| && log[j] == Def(l, LastDef(log, l).value)
    ensures forall i :: j < i < |log| ==> !(log[i].Def? && log[i].l == l) && (Local(l) ==> !log[i].Forget?)
  {
    var e := log[|log| - 1];
    if e.Def? && e.l == l {
      j := |log| - 1;
    } else {
      j := LastDefMeans(log[..|log| - 1], l);
    }
  }

  /** FirstDef finds the first definition from i on. */
  lemma {:induction false} FirstDefMeans(log: seq<Event>, i: nat, l: Label) returns (j: nat)
    requires FirstDef(log, i, l).Some?
    ensures i <= j < |log| && log[j] == Def(l, FirstDef(log, i, l).value)
    ensures forall k :: i <= k < j ==> !(log[k].Def? && log[k].l == l)
    decreases |log| - i
  {
    if log[i].Def? && log[i].l == l {
      j := i;
    } else {
      j := FirstDefMeans(log, i + 1, l);
    }
  }

  /** A backward reference names the latest definition before it, a forward reference the first one
      behind it, and what a reference names is a definition of its label. */
  lemma ResolveMeans(log: seq<Event>, i: nat) returns (j: nat)
    requires i < |log| && log[i].Ref? && Resolve(log, i).Some?
    ensures j < |log| && log[j] == Def(log[i].l, Resolve(log, i).value)
    ensures log[i].kind.Back? ==> j < i && forall k :: j < k < i ==> !(log[k].Def? && log[k].l == log[i].l)
    ensures log[i].kind.Forward? ==> i < j && forall k :: i < k < j ==> !(log[k].Def? && log[k].l == log[i].l)
  {
    var l := log[i].l;
    if log[i].kind.Forward? || (log[i].kind.Either? && LastDef(log[..i], l).None?) {
      j := FirstDefMeans(log, i + 1, l);
    } else {
      j := LastDefMeans(log[..i], l);
    }
  }

  lemma {:induction false} DefFound(log: seq<Event>, m: nat, l: Label)
    requires m < |log| && log[m].Def? && log[m].l == l && !Local(l)
    ensures LastDef(log, l).Some?
  {
    if m < |log| - 1 {
      DefFound(log[..|log| - 1], m, l);
    }
  }

  lemma {:induction false} DefAhead(log: seq<Event>, i: nat, m: nat, l: Label)
    requires i <= m < |log| && log[m].Def? && log[m].l == l
    ensures FirstDef(log, i, l).Some?
    decreases m - i
  {
    if i < m {
      DefAhead(log, i + 1, m, l);
    }
  }

  /** A reference to a label that is not local is open only when there is no definition at all. */
  lemma OpenMeans(log: seq<Event>, i: nat, m: nat)
    requires i < |log| && log[i].Ref? && log[i].kind.Either? && !Local(log[i].l) && Resolve(log, i).None? && m < |log|
             && log[m].Def?
    ensures log[m].l != log[i].l
  {
    if log[m].l == log[i].l {
      if m < i {
        DefFound(log[..i], m, log[i].l);
      } else {
        DefAhead(log, i + 1, m, log[i].l);
      }
    }
  }
}
