/** Where the references of action lists lead in the finished code. */
module DasmTargets {
  import opened DasmLabels
  import opened DasmActions
  import opened DasmHistory
  import opened DasmAsm
  import opened DasmFlat
  import opened DasmLink
  import opened DasmEmit
  import opened DasmEncoder

  /** The code of item k, a branch or an absolute address, leads to offset t. */
  ghost predicate LandsAt(lists: seq<seq<Action>>, y: Layout, out: seq<nat>, k: nat, t: int)
    requires k < |y.f|
  {
    var hi := A(y, k + 1);
    if ShrunkAt(lists, y, k) then 0 < hi <= |out| && hi + Signed(out[hi - 1], 1) == t
    else
      && 4 <= hi <= |out|
      && if Rel(Act(lists, y.f[k])) then hi + Signed(Value(out[hi - 4..hi]), 4) == t
         else Value(out[hi - 4..hi]) == (y.base + t) % 0x1_0000_0000
  }

  /** The code of item it leads to that of item to. */
  ghost predicate Lands(lists: seq<seq<Action>>, y: Layout, out: seq<nat>, it: Item, to: Item) {
    exists k: nat, t: nat ::
        k < |y.f| && t < |y.f| && y.f[k] == it && y.f[t] == to && LandsAt(lists, y, out, k, A(y, t))
  }

  /** The code of item it leads to this address. */
  ghost predicate LandsOut(lists: seq<seq<Action>>, y: Layout, out: seq<nat>, it: Item, address: int) {
    exists k: nat :: k < |y.f| && y.f[k] == it && LandsOutAt(lists, y, out, k, address)
  }

  ghost predicate LandsOutAt(lists: seq<seq<Action>>, y: Layout, out: seq<nat>, k: nat, address: int)
    requires k < |y.f|
  {
    var hi := A(y, k + 1);
    && 4 <= hi <= |out|
    && Value(out[hi - 4..hi])
       == (if Rel(Act(lists, y.f[k])) then address - (y.base + hi) else address) % 0x1_0000_0000
  }

  /** An absolute reference to a label that is defined holds its address. */
  lemma AddressLands(lists: seq<seq<Action>>, a: Asm, y: Layout, out: seq<nat>, h: seq<Step>, n: nat, k: nat)
    returns (t: nat)
    requires Encoded(lists, a, y, out, h) && n < |a.table.log| && a.table.log[n].Ref?
    requires Resolve(a.table.log, n).Some? && k < |All(a)| && Refers(Act(lists, All(a)[k]))
    requires !Rel(Act(lists, All(a)[k])) && All(a)[k].slot == a.table.log[n].slot
    ensures t < |All(a)| && Labels(Act(lists, All(a)[t])) && Resolve(a.table.log, n) == Some(All(a)[t].slot)
    ensures k < |y.f| && LandsAt(lists, y, out, k, A(y, t))
  {
    hide AsmOk, Resolve, All, Cells, A, FindLabel;
    assert All(a)[k].slot in y.b0 && y.b0[All(a)[k].slot] == Resolve(a.table.log, n).value;
    LinkValue(lists, a, y.b0, k);
    var s, i := TargetIs(lists, a, y.b0, k);
    t := Place(a, s, i);
    FindOne(lists, a, t);
    LaidOut(lists, a, y.b0, y.cuts, y);
    AddressPlaced(lists, y, out, k);
    assert Address(lists, y, k) == y.base + A(y, t);
    ValueIs(y.base + A(y, t));
  }

  lemma ValueIs(n: int)
    ensures Value(Little(n, 4)) == n % 0x1_0000_0000
  {
    LittleValue(n, 4);
    Pow256Four();
  }

  lemma AddressPlaced(lists: seq<seq<Action>>, y: Layout, out: seq<nat>, k: nat)
    requires LayoutOk(lists, y) && AllPlaced(lists, y, out, |y.f|) && k < |y.f| && Refers(Act(lists, y.f[k]))
             && !Rel(Act(lists, y.f[k]))
    ensures var hi := A(y, k + 1);
            4 <= hi <= |out| && out[hi - 4..hi] == Little(Address(lists, y, k), 4) && !ShrunkAt(lists, y, k)
  {
    hide Little, A, Address;
    assert y.f[k] == y.f[k];
    assert Placed(lists, y, out, k, |y.f|);
    KindFacts(lists, y, k);
    InOrder(lists, y, 0, k);
  }

  /** A reference to a global label that is not defined here holds the address it was given. */
  lemma ExternLands(lists: seq<seq<Action>>, a: Asm, y: Layout, out: seq<nat>, h: seq<Step>, n: nat, k: nat)
    requires Encoded(lists, a, y, out, h) && n < |a.table.log| && a.table.log[n].Ref?
    requires Resolve(a.table.log, n).None? && k < |All(a)| && Refers(Act(lists, All(a)[k]))
    requires All(a)[k].slot == a.table.log[n].slot
    ensures k < |y.f| && a.table.log[n].l.Lg? && LandsOutAt(lists, y, out, k, Extern(y, a.table.log[n].l.i))
  {
    hide AsmOk, Resolve, All, Cells, A, FindLabel, Extern, Value;
    assert All(a)[k].slot in y.b0 && y.b0[All(a)[k].slot] == -Number(a.table.log[n].l);
    LaidOut(lists, a, y.b0, y.cuts, y);
    hide LayoutOk, AllPlaced, LandsOutAt, Rel;
    if Rel(Act(lists, y.f[k])) {
      ExternBranch(lists, y, out, k);
    } else {
      ExternAddress(lists, y, out, k);
    }
  }

  lemma ExternBranch(lists: seq<seq<Action>>, y: Layout, out: seq<nat>, k: nat)
    requires LayoutOk(lists, y) && AllPlaced(lists, y, out, |y.f|) && k < |y.f| && Rel(Act(lists, y.f[k]))
    requires y.f[k].slot in y.b0 && y.b0[y.f[k].slot] < 0
    ensures LandsOutAt(lists, y, out, k, Extern(y, -y.b0[y.f[k].slot]))
  {
    hide LayoutOk, AllPlaced, A, Extern, Value, Little;
    CutValues(lists, y, k);
    RelPlaced(lists, y, out, k);
    LongBranch(lists, y, k);
    ValueIs(Extern(y, -y.b0[y.f[k].slot]) - (y.base + A(y, k + 1)));
  }

  lemma ExternAddress(lists: seq<seq<Action>>, y: Layout, out: seq<nat>, k: nat)
    requires LayoutOk(lists, y) && AllPlaced(lists, y, out, |y.f|) && k < |y.f| && Refers(Act(lists, y.f[k]))
    requires !Rel(Act(lists, y.f[k])) && y.f[k].slot in y.b0 && y.b0[y.f[k].slot] < 0
    ensures LandsOutAt(lists, y, out, k, Extern(y, -y.b0[y.f[k].slot]))
  {
    hide LayoutOk, AllPlaced, A, Extern, Value, Little;
    AddressPlaced(lists, y, out, k);
    ValueIs(Extern(y, -y.b0[y.f[k].slot]));
  }

  lemma LongBranch(lists: seq<seq<Action>>, y: Layout, k: nat)
    requires LayoutOk(lists, y) && k < |y.f| && Rel(Act(lists, y.f[k])) && k < |y.cuts| && y.cuts[k] == 0
    ensures A(y, k) + 4 == A(y, k + 1) && A(y, k) >= 0
  {
    ByteCell(lists, y, k);
    InOrder(lists, y, 0, k);
  }

  // ----- from the history -------------------------------------------------------------------------

  /** The event of a reference in the history. */
  lemma RefEvent(lists: seq<seq<Action>>, h: seq<Step>, k: nat)
    requires k < |h| && h[k].Did? && Refers(Act(lists, h[k].it))
    ensures var log, n, it := Story(lists, h), |Story(lists, h[..k])|, h[k].it;
            && n < |log| && log[n] == Ref(NameOf(Act(lists, it), it.arg), it.slot, KindOf(Act(lists, it)))
            && log[..n] == Story(lists, h[..k]) && n + 1 == |Story(lists, h[..k + 1])|
  {
    StoryAt(lists, h, k);
    var log, n, es := Story(lists, h), |Story(lists, h[..k])|, StepEvents(lists, h[k]);
    assert log[n..n + |es|][0] == log[n];
    hide Story;
  }

  /** No step from j up to k puts the label. */
  ghost predicate NoneMarks(lists: seq<seq<Action>>, h: seq<Step>, j: nat, k: nat, l: Label) {
    k <= |h| && forall i :: j <= i < k ==> !Marks(lists, h[i], l)
  }

  /** Step m puts l and is the latest to do so before step k. */
  ghost predicate LatestBefore(lists: seq<seq<Action>>, h: seq<Step>, m: nat, k: nat, l: Label) {
    m < k <= |h| && Marks(lists, h[m], l) && NoneMarks(lists, h, m + 1, k, l)
  }

  /** Step m puts l and is the first to do so behind step k. */
  ghost predicate FirstBehind(lists: seq<seq<Action>>, h: seq<Step>, m: nat, k: nat, l: Label) {
    k < m < |h| && Marks(lists, h[m], l) && NoneMarks(lists, h, k + 1, m, l)
  }

  lemma LastInPart(lists: seq<seq<Action>>, h: seq<Step>, k: nat, l: Label) returns (m: nat)
    requires ArgsOk(lists, h) && k <= |h|
    ensures match LastDef(Story(lists, h[..k]), l)
            case Some(x) =>
              && m < k && LatestBefore(lists, h, m, k, l)
              && Marks(lists, h[m], l) && h[m].Did? && h[m].it.slot == x
              && (Local(l) ==> forall j :: m < j < k ==> !h[j].Check?)
            case None => Local(l) || NoneMarks(lists, h, 0, k, l)
  {
    hide *;
    ArgsPart(lists, h, k);
    m := LastMark(lists, h[..k], l);
    match LastDef(Story(lists, h[..k]), l)
    case Some(_) => PartLatest(lists, h, m, k, l);
    case None =>
      if !Local(l) {
        PartNone(lists, h, k, l);
      }
  }

  lemma ArgsPart(lists: seq<seq<Action>>, h: seq<Step>, k: nat)
    requires ArgsOk(lists, h) && k <= |h|
    ensures ArgsOk(lists, h[..k])
  {
    hide Act;
  }

  lemma PartLatest(lists: seq<seq<Action>>, h: seq<Step>, m: nat, k: nat, l: Label)
    requires m < k <= |h| && Marks(lists, h[..k][m], l)
    requires forall j :: m < j < k ==> !Marks(lists, h[..k][j], l) && (Local(l) ==> !h[..k][j].Check?)
    ensures LatestBefore(lists, h, m, k, l) && (Local(l) ==> forall j :: m < j < k ==> !h[j].Check?)
    ensures Marks(lists, h[m], l)
  {
    hide Marks, Local;
    forall j | m < j < k ensures !Marks(lists, h[j], l) && (Local(l) ==> !h[j].Check?) {
      assert h[..k][j] == h[j];
    }
  }

  lemma PartNone(lists: seq<seq<Action>>, h: seq<Step>, k: nat, l: Label)
    requires k <= |h| && forall s <- h[..k] :: !Marks(lists, s, l)
    ensures NoneMarks(lists, h, 0, k, l)
  {
    hide Marks;
    forall i | 0 <= i < k ensures !Marks(lists, h[i], l) {
      assert h[..k][i] in h[..k];
    }
  }

  lemma FirstInRest(lists: seq<seq<Action>>, h: seq<Step>, k: nat, l: Label) returns (m: nat)
    requires ArgsOk(lists, h) && k < |h|
    ensures match FirstDef(Story(lists, h), |Story(lists, h[..k + 1])|, l)
            case Some(x) =>
              && FirstBehind(lists, h, m, k, l) && m < |h| && Marks(lists, h[m], l) && h[m].Did? && h[m].it.slot == x
            case None => NoneMarks(lists, h, k + 1, |h|, l)
  {
    hide Story, FirstDef, Marks, ArgsOk;
    m := FirstMark(lists, h, k + 1, l);
  }

  /** What a reference in the history resolves to, by its kind. */
  lemma Resolves(lists: seq<seq<Action>>, h: seq<Step>, k: nat, l: Label, kind: Kind) returns (m: nat)
    requires ArgsOk(lists, h) && k < |h| && h[k].Did? && Refers(Act(lists, h[k].it))
    requires l == NameOf(Act(lists, h[k].it), h[k].it.arg) && kind == KindOf(Act(lists, h[k].it))
    ensures |Story(lists, h[..k])| < |Story(lists, h)| && Story(lists, h)[|Story(lists, h[..k])|].Ref?
    ensures match Resolve(Story(lists, h), |Story(lists, h[..k])|)
            case Some(x) =>
              && m < |h| && Marks(lists, h[m], l) && h[m].Did? && h[m].it.slot == x
              && (kind.Forward? ==> FirstBehind(lists, h, m, k, l))
              && (kind.Back? ==>
                    LatestBefore(lists, h, m, k, l) && (Local(l) ==> forall j :: m < j < k ==> !h[j].Check?))
              && (kind.Either? && !Local(l) ==>
                    LatestBefore(lists, h, m, k, l)
                    || (FirstBehind(lists, h, m, k, l) && NoneMarks(lists, h, 0, k, l)))
            case None =>
              kind.Either? && !Local(l) ==> NoneMarks(lists, h, 0, k, l) && NoneMarks(lists, h, k + 1, |h|, l)
  {
    hide Story, LastDef, FirstDef, Marks, Local, NameOf, KindOf, Refers, ArgsOk, LatestBefore, Act;
    RefEvent(lists, h, k);
    var before := LastInPart(lists, h, k, l);
    var behind := FirstInRest(lists, h, k, l);
    hide FirstBehind, NoneMarks;
    m := if kind.Forward? || (kind.Either? && LastDef(Story(lists, h[..k]), l).None?) then behind else before;
  }

  /** Where an item of the history is in the code. */
  lemma InCode(lists: seq<seq<Action>>, a: Asm, y: Layout, out: seq<nat>, h: seq<Step>, k: nat) returns (j: nat)
    requires Encoded(lists, a, y, out, h) && k < |h| && h[k].Did?
    ensures j < |All(a)| && All(a)[j] == h[k].it && y.f == All(a) && ItemOk(lists, h[k].it)
  {
    hide ListsOk, TableOk, FixedOk, BelowOk, EventsOk, ItemsHeld, Resolved, Flat, Cells, AllPlaced, Story;
    assert h[k] in h;
    var t :| t in a.trace && h[k].it in t;
    var s :| 0 <= s < |a.trace| && a.trace[s] == t;
    var i :| 0 <= i < |t| && t[i] == h[k].it;
    FlatAt(a.trace, |a.trace|, s, i);
    SecIs(lists, a, s);
    j := Place(a, s, i);
  }

  lemma ArgsFine(lists: seq<seq<Action>>, a: Asm, y: Layout, out: seq<nat>, h: seq<Step>)
    requires Encoded(lists, a, y, out, h)
    ensures ArgsOk(lists, h)
  {
    hide Encoded;
    forall s | s in h && s.Did? && Act(lists, s.it).LabelPc? ensures s.it.arg >= 0 {
      var k :| 0 <= k < |h| && h[k] == s;
      var j := InCode(lists, a, y, out, h, k);
    }
  }

  /** Labels at the same position are the same item. */
  lemma SameLabel(lists: seq<seq<Action>>, a: Asm, j: nat, k: nat)
    requires AsmOk(lists, a) && j < |All(a)| && k < |All(a)| && All(a)[j].slot == All(a)[k].slot
    requires Labels(Act(lists, All(a)[j])) && Labels(Act(lists, All(a)[k]))
    ensures j == k
  {
    hide ListsOk, TableOk, FixedOk, BelowOk, EventsOk, ItemsHeld, TracesOk, All;
    if j < k {
      OneLabel(lists, a, j, k);
    } else if k < j {
      OneLabel(lists, a, k, j);
    }
  }

  lemma BranchIs(lists: seq<seq<Action>>, y: Layout, out: seq<nat>, k: nat, t: int)
    requires k < |y.f| && k < |y.cuts| && Rel(Act(lists, y.f[k]))
    requires var hi := A(y, k + 1);
             if y.cuts[k] > 0 then 0 < hi <= |out| && hi + Signed(out[hi - 1], 1) == t
             else 4 <= hi <= |out| && hi + Signed(Value(out[hi - 4..hi]), 4) == t
    ensures LandsAt(lists, y, out, k, t)
  {
  }

  /** A reference leads to the label that its event is bound to. */
  lemma BoundLands(lists: seq<seq<Action>>, a: Asm, y: Layout, out: seq<nat>, h: seq<Step>, k: nat, m: nat, l: Label)
    requires Encoded(lists, a, y, out, h) && k < |h| && h[k].Did? && Refers(Act(lists, h[k].it))
    requires var log, n := Story(lists, h), |Story(lists, h[..k])|;
             n < |log| && log[n].Ref? && log[n].slot == h[k].it.slot && m < |h| && Marks(lists, h[m], l)
             && Resolve(log, n) == Some(h[m].it.slot)
    ensures Lands(lists, y, out, h[k].it, h[m].it)
  {
    hide AsmOk, Resolve, Story, All, Cells, AllPlaced, Resolved, Marks, Act, Labels, Refers, A;
    var n := |Story(lists, h[..k])|;
    MarksDid(lists, h[m], l);
    var j := InCode(lists, a, y, out, h, k);
    var to := InCode(lists, a, y, out, h, m);
    var t;
    if Rel(Act(lists, h[k].it)) {
      t := BranchLands(lists, a, y.b0, y.cuts, y, out, n, j);
      LaidOut(lists, a, y.b0, y.cuts, y);
      LayoutSize(lists, y);
      BranchIs(lists, y, out, j, A(y, t));
    } else {
      t := AddressLands(lists, a, y, out, h, n, j);
    }
    SameLabel(lists, a, t, to);
    assert LandsAt(lists, y, out, j, A(y, t));
  }

  /** Where a reference leads, by the label and the kind that it is taken for. */
  lemma ReferenceLands(lists: seq<seq<Action>>, a: Asm, y: Layout, out: seq<nat>, h: seq<Step>, k: nat, l: Label,
                       kind: Kind) returns (m: nat)
    requires Encoded(lists, a, y, out, h) && k < |h| && h[k].Did? && Refers(Act(lists, h[k].it))
    requires l == NameOf(Act(lists, h[k].it), h[k].it.arg) && kind == KindOf(Act(lists, h[k].it))
    requires kind.Either? <==> !Local(l)
    ensures kind.Forward? ==> FirstBehind(lists, h, m, k, l)
    ensures kind.Back? ==> LatestBefore(lists, h, m, k, l) && forall j :: m < j < k ==> !h[j].Check?
    ensures kind.Either? && m < |h| ==>
              LatestBefore(lists, h, m, k, l) || (FirstBehind(lists, h, m, k, l) && NoneMarks(lists, h, 0, k, l))
    ensures m < |h| ==> Lands(lists, y, out, h[k].it, h[m].it)
    ensures m >= |h| ==>
              l.Lg? && l.i >= 10 && NoneMarks(lists, h, 0, k, l) && NoneMarks(lists, h, k + 1, |h|, l)
              && LandsOut(lists, y, out, h[k].it, Extern(y, l.i))
  {
    ArgsFine(lists, a, y, out, h);
    m := Resolves(lists, h, k, l, kind);
    RefEvent(lists, h, k);
    var log, n := Story(lists, h), |Story(lists, h[..k])|;
    hide Story, Resolve, Encoded, NameOf, KindOf, Marks, ArgsOk;
    if Resolve(log, n).Some? {
      BoundLands(lists, a, y, out, h, k, m, l);
    } else {
      m := |h|;
      var j := InCode(lists, a, y, out, h, k);
      OpenIs(lists, a, y, out, h, n);
      ExternLands(lists, a, y, out, h, n, j);
    }
  }

  /** Only references to globals stay open. */
  lemma OpenIs(lists: seq<seq<Action>>, a: Asm, y: Layout, out: seq<nat>, h: seq<Step>, n: nat)
    requires Encoded(lists, a, y, out, h) && n < |a.table.log| && a.table.log[n].Ref?
    ensures a.table.log == Story(lists, h)
    ensures Resolve(a.table.log, n).None? ==> a.table.log[n].l.Lg? && a.table.log[n].l.i >= 10
  {
    hide AsmOk, Resolve, Story, All, Cells, AllPlaced;
  }

  // ----- the references of action lists -------------------------------------------------------------

  /** A reference to a local label with 246 added, >i in the source, leads to the first label i that is
      put behind it. */
  lemma ForwardLands(lists: seq<seq<Action>>, a: Asm, y: Layout, out: seq<nat>, h: seq<Step>, k: nat, i: nat)
    returns (m: nat)
    requires Encoded(lists, a, y, out, h) && k < |h| && h[k].Did? && 0 < i < 10
    requires Act(lists, h[k].it) == RelLg(246 + i) || Act(lists, h[k].it) == ImmLg(246 + i)
    ensures k < m < |h| && h[m].Did? && Act(lists, h[m].it) == LabelLg(i)
    ensures forall j :: k < j < m ==> !(h[j].Did? && Act(lists, h[j].it) == LabelLg(i))
    ensures Lands(lists, y, out, h[k].it, h[m].it)
  {
    hide Encoded;
    m := ReferenceLands(lists, a, y, out, h, k, Lg(i), Forward);
  }

  /** A reference to a local label, <i in the source, leads to the latest label i put before it, since
      the latest check. */
  lemma BackwardLands(lists: seq<seq<Action>>, a: Asm, y: Layout, out: seq<nat>, h: seq<Step>, k: nat, i: nat)
    returns (m: nat)
    requires Encoded(lists, a, y, out, h) && k < |h| && h[k].Did? && 0 < i < 10
    requires Act(lists, h[k].it) == RelLg(i) || Act(lists, h[k].it) == ImmLg(i)
    ensures m < k && h[m].Did? && Act(lists, h[m].it) == LabelLg(i)
    ensures forall j :: m < j < k ==> !(h[j].Did? && Act(lists, h[j].it) == LabelLg(i)) && !h[j].Check?
    ensures Lands(lists, y, out, h[k].it, h[m].it)
  {
    hide Encoded;
    m := ReferenceLands(lists, a, y, out, h, k, Lg(i), Back);
  }

  /** A reference to global label n leads to the latest one put before it, without one to the first one
      behind it, and without any to the address given for it. */
  lemma GlobalLands(lists: seq<seq<Action>>, a: Asm, y: Layout, out: seq<nat>, h: seq<Step>, k: nat, n: nat)
    returns (m: nat)
    requires Encoded(lists, a, y, out, h) && k < |h| && h[k].Did? && 10 <= n <= 246
    requires Act(lists, h[k].it) == RelLg(n) || Act(lists, h[k].it) == ImmLg(n)
    ensures m < |h| ==> h[m].Did? && Act(lists, h[m].it) == LabelLg(n) && Lands(lists, y, out, h[k].it, h[m].it)
    ensures forall j :: 0 <= j < |h| && (m < j < k || (m > k && j < m)) ==>
                          !(h[j].Did? && Act(lists, h[j].it) == LabelLg(n))
    ensures m >= |h| ==> LandsOut(lists, y, out, h[k].it, if n in y.globals then y.globals[n] else 0)
  {
    hide Encoded;
    m := ReferenceLands(lists, a, y, out, h, k, Lg(n), Either);
  }

  lemma PcName(lists: seq<seq<Action>>, it: Item)
    requires ItemOk(lists, it) && (Act(lists, it).RelPc? || Act(lists, it).ImmPc?)
    ensures it.arg >= 0 && Refers(Act(lists, it)) && NameOf(Act(lists, it), it.arg) == Pc(it.arg)
    ensures KindOf(Act(lists, it)) == Either
  {
  }

  /** A reference to PC label n leads to the latest one put before it, or without one to the first one
      behind it. */
  lemma PcLands(lists: seq<seq<Action>>, a: Asm, y: Layout, out: seq<nat>, h: seq<Step>, k: nat) returns (m: nat)
    requires Encoded(lists, a, y, out, h) && k < |h| && h[k].Did?
    requires Act(lists, h[k].it).RelPc? || Act(lists, h[k].it).ImmPc?
    ensures m < |h| && h[m].Did? && Act(lists, h[m].it).LabelPc? && h[m].it.arg == h[k].it.arg
    ensures forall j :: 0 <= j < |h| && (m < j < k || (m > k && j < m)) ==>
                          !(h[j].Did? && Act(lists, h[j].it).LabelPc? && h[j].it.arg == h[k].it.arg)
    ensures Lands(lists, y, out, h[k].it, h[m].it)
  {
    hide Encoded, NameOf, KindOf, Refers, Lands, ItemOk;
    var c := InCode(lists, a, y, out, h, k);
    PcName(lists, h[k].it);
    m := ReferenceLands(lists, a, y, out, h, k, Pc(h[k].it.arg), Either);
  }

  // ----- immediates and opcodes ---------------------------------------------------------------------

  /** How the processor reads the bytes of an immediate. */
  function ReadBack(w: Width, bytes: seq<nat>): int {
    if w.ImmS? then Signed(Value(bytes), 1) else if w.ImmD? then Signed(Value(bytes), 4) else Value(bytes)
  }

  function Size(w: Width): nat { if w.ImmD? then 4 else if w.ImmW? then 2 else 1 }

  /** The range checks let just those immediates pass that their bytes can hold. */
  lemma ImmediateFits(w: Width, n: int)
    ensures FitsIn(w, n) <==> ReadBack(w, Little(n, Size(w))) == n
    ensures |Little(n, WidthOf(w))| == Size(w)
  {
    LittleValue(n, Size(w));
    Pow256Four();
    assert Pow256(2) == 65536;
    hide Little, Value, Pow256;
  }

  /** An immediate that was put is in the code, in its size. */
  lemma ImmediateReads(lists: seq<seq<Action>>, a: Asm, y: Layout, out: seq<nat>, h: seq<Step>, k: nat) returns (j: nat)
    requires Encoded(lists, a, y, out, h) && k < |h| && h[k].Did? && Act(lists, h[k].it).Imm?
    ensures j < |y.f| && y.f[j] == h[k].it
    ensures var lo, w := A(y, j), Act(lists, h[k].it).w;
            0 <= lo && lo + Size(w) <= |out| && ReadBack(w, out[lo..lo + Size(w)]) == h[k].it.arg
  {
    hide AsmOk, Ready, All, Cells, A, Little, Value, ReadBack, FitsIn, Told, AllPlaced, LayoutOk, Act, ItemOk;
    j := InCode(lists, a, y, out, h, k);
    LaidOut(lists, a, y.b0, y.cuts, y);
    hide *;
    var w, arg := Act(lists, h[k].it).w, h[k].it.arg;
    ImmediatePlaced(lists, y, out, j);
    ImmediateFits(w, arg);
    ImmediateOk(lists, h[k].it);
  }

  lemma ImmediateOk(lists: seq<seq<Action>>, it: Item)
    requires ItemOk(lists, it) && Act(lists, it).Imm?
    ensures FitsIn(Act(lists, it).w, it.arg) && Size(Act(lists, it).w) == WidthOf(Act(lists, it).w)
  {
  }

  lemma ImmediatePlaced(lists: seq<seq<Action>>, y: Layout, out: seq<nat>, j: nat)
    requires LayoutOk(lists, y) && AllPlaced(lists, y, out, |y.f|) && j < |y.f| && Act(lists, y.f[j]).Imm?
    ensures var lo, w := A(y, j), Act(lists, y.f[j]).w;
            0 <= lo && lo + Size(w) <= |out| && out[lo..lo + Size(w)] == Little(y.f[j].arg, WidthOf(w))
  {
    hide Little, A;
    assert y.f[j] == y.f[j];
    assert Placed(lists, y, out, j, |y.f|);
    KindFacts(lists, y, j);
  }

  /** A branch is made short only if it is an unconditional one, e9, or a conditional one, 0f 80 to
      0f 8f, and then it is the short branch of the same kind. */
  lemma ShortBranch(lists: seq<seq<Action>>, a: Asm, y: Layout, out: seq<nat>, h: seq<Step>, k: nat) returns (j: nat)
    requires Encoded(lists, a, y, out, h) && k < |h| && h[k].Did? && Rel(Act(lists, h[k].it))
    ensures 0 < j < |y.f| && y.f[j] == h[k].it && Act(lists, y.f[j - 1]).Byte?
    ensures var op, hi := Act(lists, y.f[j - 1]).v, A(y, j + 1);
            ShrunkAt(lists, y, j) ==>
              && 2 <= hi <= |out|
              && (op == 0xe9 ==> out[hi - 2] == 0xeb)
              && (op != 0xe9 ==>
                    j > 1 && Act(lists, y.f[j - 2]) == Byte(0x0f) && 0x80 <= op < 0x90
                    && out[hi - 2] == 0x70 + (op - 0x80))
  {
    j := InCode(lists, a, y, out, h, k);
    LaidOut(lists, a, y.b0, y.cuts, y);
    OpcodesAt(lists, a, y.b0, j);
    hide Encoded, All, Cells, A, LayoutOk, ShrinkOf;
    if ShrunkAt(lists, y, j) {
      ShortPlaced(lists, a, y, out, h, j);
    }
  }

  /** The opcode bytes in front of a branch. */
  lemma OpcodesAt(lists: seq<seq<Action>>, a: Asm, b0: map<nat, int>, j: nat)
    requires Ready(lists, a, b0) && j < |All(a)| && Rel(Act(lists, All(a)[j]))
    ensures j > 0 && Act(lists, All(a)[j - 1]).Byte?
    ensures ShrinkOf(Act(lists, All(a)[j - 1]).v) == 4 ==> j > 1 && Act(lists, All(a)[j - 2]) == Byte(0x0f)
  {
    hide TableOk, FixedOk, EventsOk, BelowOk, ItemsHeld, Resolved;
    var s, i := FlatIs(a.trace, |a.trace|, j);
    SecIs(lists, a, s);
    OpcodeBefore(lists, a.trace[s], s, i);
    FlatAt(a.trace, |a.trace|, s, i - 1);
    if i > 1 {
      FlatAt(a.trace, |a.trace|, s, i - 2);
    }
  }

  lemma ShortPlaced(lists: seq<seq<Action>>, a: Asm, y: Layout, out: seq<nat>, h: seq<Step>, j: nat)
    requires Encoded(lists, a, y, out, h) && 0 < j < |y.f| && ShrunkAt(lists, y, j) && Act(lists, y.f[j - 1]).Byte?
    ensures var op, hi := Act(lists, y.f[j - 1]).v, A(y, j + 1);
            && 2 <= hi <= |out| && (op == 0xe9 || (0x80 <= op < 0x90 && ShrinkOf(op) == 4))
            && out[hi - 2] == if op == 0xe9 then 0xeb else 0x70 + (op - 0x80)
  {
    hide AsmOk, Told, A, All, Cells, Disp, Address, Resolve;
    LaidOut(lists, a, y.b0, y.cuts, y);
    assert y.f[j] == y.f[j];
    assert Placed(lists, y, out, j, |y.f|);
    LinkValue(lists, a, y.b0, j);
    CutValues(lists, y, j);
  }
}
