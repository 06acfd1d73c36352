/** The register shuffle at the head of a side trace: a parallel move, emitted backwards. */
module JitShuffle {

  /** dst gets the value of src. */
  datatype Move = Move(dst: nat, src: nat)

  /** Code is emitted backwards: what is emitted first runs last. */
  function Exec(code: seq<Move>, regs: map<nat, int>): map<nat, int> {
    if code == [] then regs
    else
      var m := code[|code| - 1];
      Exec(code[..|code| - 1], if m.src in regs then regs[m.dst := regs[m.src]] else regs)
  }

  /** The register whose value at the entry ends up in r. */
  function Source(code: seq<Move>, r: nat): nat {
    if code == [] then r
    else
      var x := Source(code[..|code| - 1], r);
      if x == code[|code| - 1].dst then code[|code| - 1].src else x
  }

  /** Running the code puts into r what was in Source(code, r). */
  lemma {:induction false} ExecSource(code: seq<Move>, regs: map<nat, int>, r: nat)
    requires (forall m <- code :: m.src in regs) && Source(code, r) in regs
    ensures r in Exec(code, regs) && Exec(code, regs)[r] == regs[Source(code, r)]
  {
    if code != [] {
      var m := code[|code| - 1];
      var rest := code[..|code| - 1];
      assert m in code;
      forall n | n in rest ensures n.src in regs[m.dst := regs[m.src]] {
        assert n in code;
      }
      ExecSource(rest, regs[m.dst := regs[m.src]], r);
    }
  }

  lemma SourceMore(code: seq<Move>, m: Move, r: nat)
    ensures Source(code + [m], r) == if Source(code, r) == m.dst then m.src else Source(code, r)
  {
    assert (code + [m])[..|code|] == code;
  }

  /** The register allocator's state at the head of a side trace. sload: the instruction that
      inherits the value of a parent register. reg: the register of an instruction. cost: the
      instruction that an allocated register is for. goal: where the value of a parent register
      has to end up. settled: the registers whose value stays in place. */
  datatype State = State(gpr: set<nat>, fpr: set<nat>, sload: map<nat, nat>, freeset: set<nat>, live: set<nat>,
                         allow: set<nat>, reg: map<nat, nat>, cost: map<nat, nat>, code: seq<Move>,
                         goal: map<nat, nat>, settled: set<nat>)
  {
    /** The register that has to hold the value of parent register p at this point of the code. */
    ghost function Cur(p: nat): nat {
      if p in live && p in sload && sload[p] in reg then reg[sload[p]] else p
    }

    /** The instruction that inherits p holds an allocated register of p's class. */
    ghost predicate Pending(p: nat) {
      && p in sload && sload[p] in reg && p in goal
      && Cur(p) !in freeset && Cur(p) in cost && cost[Cur(p)] == sload[p]
      && (p in gpr <==> Cur(p) in gpr) && (p in fpr <==> Cur(p) in fpr)
    }

    ghost predicate Holds(p: nat, q: nat) {
      q in live && q in sload && p in cost && sload[q] == cost[p] && Cur(q) == p
    }

    /** A live parent register that is not free is allocated to an instruction that waits, too. */
    ghost predicate Owned(p: nat) {
      p !in freeset ==> exists q: nat :: Holds(p, q)
    }

    ghost predicate Distinct() {
      forall p, q :: p in live && q in live && p != q && p in sload && q in sload ==> sload[p] != sload[q]
    }

    ghost predicate Classes() {
      gpr !! fpr && (forall r <- gpr + fpr :: r < 64) && live <= gpr + fpr && freeset <= gpr + fpr
    }

    /** What has been settled is free and cannot become a temporary. */
    ghost predicate Apart() {
      && (forall p <- goal :: p !in live ==> p in freeset && p !in allow)
      && (forall m <- settled :: m in freeset && m !in allow && m !in live)
    }

    /** The code emitted so far brings each value from where it has to be now to its target. */
    ghost predicate Brings() {
      && (forall p <- goal :: Source(code, goal[p]) == Cur(p))
      && (forall m <- settled :: Source(code, m) == m)
    }

    ghost predicate Ok() {
      && Classes() && Distinct() && (forall p <- live :: Pending(p) && Owned(p)) && Apart() && Brings()
    }

    /** Registers of a class that a cycle can be broken with: free ones, and those that are used for
        that right now. */
    ghost function Slack(c: set<nat>): set<nat> {
      set x | x in c && x in allow && x !in live && (x in freeset || Taken(x))
    }

    ghost predicate Taken(x: nat) {
      exists q: nat :: q in live && Cur(q) == x
    }

    /** Waiting registers that only wait for each other. */
    ghost predicate Cycle(c: set<nat>, ring: set<nat>) {
      ring != {} && ring <= live * c && ring !! freeset && forall p <- ring :: exists q: nat :: q in ring && Holds(p, q)
    }

    /** The values of a class can be moved: there is a spare register, or no cycle. */
    ghost predicate Solvable(c: set<nat>) {
      freeset * allow * c - live != {} || forall ring: set<nat> :: !Cycle(c, ring)
    }

    /** No target can be used as a temporary. */
    ghost predicate TargetsKept() {
      forall p <- live :: Cur(p) !in allow
    }

    ghost predicate Class(c: set<nat>) {
      c == gpr || c == fpr
    }

    ghost function Coalesced(p: nat): State {
      this.(live := live - {p}, allow := allow - {p}, freeset := freeset + {Cur(p)}, code := code + [Move(Cur(p), p)])
    }

    ghost function Renamed(ref: nat, down: nat, up: nat): State {
      this.(cost := cost[up := ref][down := 0], reg := reg[ref := up], freeset := freeset + {down} - {up},
      code := code + [Move(down, up)])
    }
  }

  /** Moving the value of a free live register keeps the invariant. */
  lemma CoalescedOk(s: State, p: nat)
    requires s.Ok() && p in s.live && p in s.freeset
    ensures s.Coalesced(p).Ok()
  {
    var t := s.Coalesced(p);
    assert s.Pending(p);
    forall r | r in t.live ensures t.Pending(r) && t.Owned(r) {
      assert s.Pending(r) && s.Owned(r);
      if r !in t.freeset {
        var o: nat :| s.Holds(r, o);
        assert t.Holds(r, o);
      }
    }
    assert t.Brings() by {
      forall r | r in t.goal ensures Source(t.code, t.goal[r]) == t.Cur(r) {
        SourceMore(s.code, Move(s.Cur(p), p), s.goal[r]);
        assert r in s.live ==> s.Pending(r);
      }
      forall m | m in s.settled ensures Source(t.code, m) == m {
        SourceMore(s.code, Move(s.Cur(p), p), m);
      }
    }
  }

  ghost predicate CanRename(s: State, q: nat, down: nat, up: nat) {
    && s.Ok() && down in s.live && down !in s.freeset && s.Holds(down, q)
    && up in s.freeset && up in s.allow && up !in s.live
    && (down in s.gpr <==> up in s.gpr) && (down in s.fpr <==> up in s.fpr)
  }

  lemma RenamedCur(s: State, q: nat, down: nat, up: nat, p: nat)
    requires CanRename(s, q, down, up)
    ensures s.Renamed(s.cost[down], down, up).Cur(p) == if p == q then up else s.Cur(p)
    ensures p in s.live && p != q ==> s.Cur(p) != down && s.Cur(p) != up
  {
    hide State.Brings, State.Owned, State.Classes, State.Apart;
    if p in s.live {
      assert s.Pending(p) && s.Pending(q);
    }
  }

  lemma RenamedPending(s: State, q: nat, down: nat, up: nat, p: nat)
    requires CanRename(s, q, down, up) && p in s.live
    ensures s.Renamed(s.cost[down], down, up).Pending(p)
  {
    hide State.Brings, State.Owned, State.Classes, State.Apart;
    RenamedCur(s, q, down, up, p);
    assert s.Pending(p) && s.Pending(q);
    assert s.Distinct();
  }

  lemma RenamedOwned(s: State, q: nat, down: nat, up: nat, p: nat)
    requires CanRename(s, q, down, up) && p in s.live
    ensures s.Renamed(s.cost[down], down, up).Owned(p)
  {
    hide State.Brings, State.Classes, State.Apart;
    var t := s.Renamed(s.cost[down], down, up);
    assert s.Owned(p);
    if p !in t.freeset {
      var o: nat :| s.Holds(p, o);
      assert s.Pending(o);
      RenamedCur(s, q, down, up, o);
      assert t.Holds(p, o);
    }
  }

  lemma RenamedBrings(s: State, q: nat, down: nat, up: nat)
    requires CanRename(s, q, down, up)
    ensures s.Renamed(s.cost[down], down, up).Brings()
  {
    hide State.Owned, State.Classes;
    var t := s.Renamed(s.cost[down], down, up);
    forall r | r in t.goal ensures Source(t.code, t.goal[r]) == t.Cur(r) {
      SourceMore(s.code, Move(down, up), s.goal[r]);
      RenamedCur(s, q, down, up, r);
    }
    forall m | m in s.settled ensures Source(t.code, m) == m {
      SourceMore(s.code, Move(down, up), m);
    }
  }

  /** Giving a waiting instruction the temporary up instead of down keeps the invariant. */
  lemma RenamedOk(s: State, q: nat, down: nat, up: nat)
    requires CanRename(s, q, down, up)
    ensures s.Renamed(s.cost[down], down, up).Ok()
  {
    var t := s.Renamed(s.cost[down], down, up);
    RenamedBrings(s, q, down, up);
    forall p | p in t.live ensures t.Pending(p) && t.Owned(p) {
      RenamedPending(s, q, down, up, p);
      RenamedOwned(s, q, down, up, p);
    }
    hide State.Brings, State.Owned, State.Pending;
  }

  lemma SlackCoalesced(s: State, p: nat, c: set<nat>)
    requires s.Ok() && p in s.live && p in s.freeset && s.Class(c)
    ensures s.Coalesced(p).Slack(c) == s.Slack(c)
  {
    hide State.Brings, State.Owned, State.Classes;
    var t := s.Coalesced(p);
    assert s.Pending(p);
    forall q | q in t.live ensures t.Cur(q) == s.Cur(q) {
    }
    forall x | x in c && x in t.allow ensures x in t.Slack(c) <==> x in s.Slack(c) {
      assert x != p;
      if s.Taken(x) {
        var q: nat :| q in s.live && s.Cur(q) == x;
        assert q == p || (q in t.live && t.Cur(q) == x);
      }
      if t.Taken(x) {
        var q: nat :| q in t.live && t.Cur(q) == x;
        assert q in s.live && s.Cur(q) == x;
      }
      assert x in t.freeset <==> x in s.freeset || x == s.Cur(p);
    }
  }

  lemma SlackRenamed(s: State, q: nat, down: nat, up: nat, c: set<nat>)
    requires CanRename(s, q, down, up) && s.Class(c)
    ensures s.Renamed(s.cost[down], down, up).Slack(c) == s.Slack(c)
  {
    hide State.Brings, State.Owned, State.Classes;
    var t := s.Renamed(s.cost[down], down, up);
    forall r: nat | r in s.live ensures t.Cur(r) == if r == q then up else s.Cur(r) {
      RenamedCur(s, q, down, up, r);
    }
    forall x | x in c && x in s.allow && x !in s.live ensures x in t.Slack(c) <==> x in s.Slack(c) {
      if s.Taken(x) {
        var r: nat :| r in s.live && s.Cur(r) == x;
        assert r != q;
        assert r in t.live && t.Cur(r) == x;
      }
      if t.Taken(x) && x != up {
        var r: nat :| r in t.live && t.Cur(r) == x;
        assert r in s.live && s.Cur(r) == x;
      }
      if x == up {
        assert q in t.live && t.Cur(q) == x;
      }
    }
  }

  ghost function CurImage(s: State, d: set<nat>): set<nat> {
    set p | p in d :: s.Cur(p)
  }

  lemma {:induction false} ImageSize(s: State, d: set<nat>)
    ensures |CurImage(s, d)| <= |d|
    decreases |d|
  {
    if d != {} {
      var p :| p in d;
      ImageSize(s, d - {p});
      assert CurImage(s, d) == CurImage(s, d - {p}) + {s.Cur(p)};
    }
  }

  lemma SubsetSize(a: set<nat>, b: set<nat>)
    requires a <= b && |b| <= |a|
    ensures a == b
  {
    if a != b {
      var x :| x in b && x !in a;
      assert |b - {x}| == |b| - 1;
      SetSize(a, b - {x});
    }
  }

  lemma {:induction false} SetSize(a: set<nat>, b: set<nat>)
    requires a <= b
    ensures |a| <= |b|
    decreases |a|
  {
    if a != {} {
      var x :| x in a;
      SetSize(a - {x}, b - {x});
    }
  }

  /** When no live register is free, the live registers wait for each other: no temporary is taken. */
  lemma StuckIsPermutation(s: State, p: nat)
    requires s.Ok() && s.live !! s.freeset && p in s.live
    ensures s.Cur(p) in s.live
  {
    forall x | x in s.live ensures x in CurImage(s, s.live) {
      assert s.Owned(x);
      var q: nat :| s.Holds(x, q);
    }
    ImageSize(s, s.live);
    SubsetSize(s.live, CurImage(s, s.live));
    assert s.Cur(p) in CurImage(s, s.live);
  }

  lemma StuckSlack(s: State, c: set<nat>)
    requires s.Ok() && s.live !! s.freeset
    ensures s.Slack(c) == s.freeset * s.allow * c - s.live
  {
    forall x | x in s.Slack(c) ensures x in s.freeset {
      if s.Taken(x) {
        var q: nat :| q in s.live && s.Cur(q) == x;
        StuckIsPermutation(s, q);
      }
    }
  }

  /** Nothing of a class without spare registers has been renamed. */
  ghost predicate Unrenamed(s: State, t: State, c: set<nat>) {
    && t.gpr == s.gpr && t.fpr == s.fpr && t.sload == s.sload && t.live <= s.live && s.freeset * c <= t.freeset
    && (forall p <- t.live :: p in c ==> t.Cur(p) == s.Cur(p))
    && (forall p <- c :: (p in t.cost <==> p in s.cost) && (p in s.cost ==> t.cost[p] == s.cost[p]))
  }

  lemma UnrenamedCoalesced(s: State, t: State, p: nat, c: set<nat>)
    requires Unrenamed(s, t, c) && t.Ok() && p in t.live && p in t.freeset
    ensures Unrenamed(s, t.Coalesced(p), c)
  {
    hide State.Ok;
  }

  lemma UnrenamedOther(s: State, t: State, q: nat, down: nat, up: nat, c: set<nat>)
    requires Unrenamed(s, t, c) && CanRename(t, q, down, up) && t.Class(c) && up !in c
    ensures Unrenamed(s, t.Renamed(t.cost[down], down, up), c)
  {
    assert down !in c && t.Pending(q) && q !in c;
    forall r: nat | r in t.live && r in c ensures t.Renamed(t.cost[down], down, up).Cur(r) == s.Cur(r) {
      RenamedCur(t, q, down, up, r);
    }
    hide State.Ok;
  }

  lemma StuckMember(s: State, t: State, c: set<nat>, p: nat) returns (q: nat)
    requires t.Ok() && Unrenamed(s, t, c) && t.Class(c) && t.live !! t.freeset && p in t.live * c
    ensures q in t.live * c && s.Holds(p, q)
  {
    assert t.Owned(p);
    q :| t.Holds(p, q);
    assert t.Pending(q);
    hide State.Ok, State.Owned, State.Pending;
  }

  /** The registers that are stuck at the end were a cycle from the start. */
  lemma StuckIsCycle(s: State, t: State, c: set<nat>)
    requires t.Ok() && Unrenamed(s, t, c) && t.Class(c) && t.live !! t.freeset && t.live * c != {}
    ensures s.Cycle(c, t.live * c)
  {
    hide State.Ok, State.Holds;
    var ring := t.live * c;
    forall p | p in ring ensures exists q: nat :: q in ring && s.Holds(p, q) {
      var q := StuckMember(s, t, c, p);
    }
  }

  lemma Smaller(a: set<nat>, b: set<nat>)
    ensures a < b ==> |a| < |b|
  {
    if a < b {
      SetSize(a, b);
      if |a| == |b| {
        SubsetSize(a, b);
      }
    }
  }

  lemma Classified(s: State)
    requires s.Ok()
    ensures s.live <= s.gpr + s.fpr && s.gpr !! s.fpr
  {
  }

  /** A cycle without a spare register never gets free. */
  lemma CycleStays(s: State, t: State, p: nat, c: set<nat>, ring: set<nat>)
    requires t.Ok() && Unrenamed(s, t, c) && s.Cycle(c, ring) && ring <= t.live && ring !! t.freeset
    requires p in t.live && p in t.freeset
    ensures p !in ring && t.Cur(p) !in ring
  {
    hide State.Brings, State.Classes, State.Apart, State.Owned;
    assert t.Pending(p);
  }

  ghost predicate CyclesStay(s: State, t: State, c: set<nat>) {
    forall ring: set<nat> :: s.Cycle(c, ring) ==> ring <= t.live && ring !! t.freeset
  }

  /** What the shuffle keeps for a class of registers, from state s on. */
  ghost predicate Keeps(s: State, t: State, c: set<nat>) {
    t.Slack(c) == s.Slack(c) && (s.Slack(c) == {} ==> Unrenamed(s, t, c) && CyclesStay(s, t, c))
  }

  lemma KeepsCoalesced(s: State, t: State, p: nat, c: set<nat>)
    requires Keeps(s, t, c) && t.Ok() && p in t.live && p in t.freeset && t.Class(c)
    ensures Keeps(s, t.Coalesced(p), c)
  {
    hide State.Ok, State.Cycle, State.Slack, Unrenamed;
    SlackCoalesced(t, p, c);
    if s.Slack(c) == {} {
      UnrenamedCoalesced(s, t, p, c);
      forall ring: set<nat> | s.Cycle(c, ring)
        ensures ring <= t.Coalesced(p).live && ring !! t.Coalesced(p).freeset
      {
        CycleStays(s, t, p, c, ring);
      }
    }
  }

  lemma KeepsRenamed(s: State, t: State, q: nat, down: nat, up: nat, c: set<nat>)
    requires Keeps(s, t, c) && CanRename(t, q, down, up) && t.Class(c)
    ensures Keeps(s, t.Renamed(t.cost[down], down, up), c)
  {
    hide State.Ok, State.Cycle, Unrenamed;
    SlackRenamed(t, q, down, up, c);
    if s.Slack(c) == {} {
      assert up !in t.Slack(c);
      assert up !in c;
      UnrenamedOther(s, t, q, down, up, c);
      assert down !in c;
      forall ring: set<nat> | s.Cycle(c, ring)
        ensures ring !! t.Renamed(t.cost[down], down, up).freeset
      {
        assert ring <= c by { CycleIn(s, c, ring); }
      }
    }
  }

  lemma CycleIn(s: State, c: set<nat>, ring: set<nat>)
    requires s.Cycle(c, ring)
    ensures ring <= c && ring != {}
  {
  }

  lemma KeepsStart(s: State, c: set<nat>)
    requires s.Ok() && s.TargetsKept() && s.Class(c)
    ensures s.Slack(c) == s.freeset * s.allow * c - s.live && Keeps(s, s, c)
  {
    hide State.Ok;
  }

  lemma CycleLeft(s: State, t: State, c: set<nat>, ring: set<nat>)
    requires CyclesStay(s, t, c)
    ensures s.Cycle(c, ring) ==> t.live * c != {}
  {
    hide State.Cycle;
    if s.Cycle(c, ring) {
      CycleIn(s, c, ring);
      var x :| x in ring;
      assert x in t.live * c;
    }
  }

  /** With a spare register there always is a temporary for a cycle; without one, the shuffle gets
      stuck exactly on the cycles that were there from the start. */
  lemma Solved(s: State, t: State, c: set<nat>)
    requires s.Slack(c) == s.freeset * s.allow * c - s.live
    requires Keeps(s, t, c) && t.Ok() && t.Class(c) && t.live !! t.freeset
    ensures t.live * c == {} ==> s.Solvable(c)
    ensures t.live * c != {} ==> (s.Solvable(c) <==> t.freeset * t.allow * c - t.live != {})
  {
    hide State.Ok, State.Slack, Unrenamed, State.Cycle, CyclesStay;
    StuckSlack(t, c);
    if s.Slack(c) == {} {
      if t.live * c != {} {
        StuckIsCycle(s, t, c);
      } else {
        forall ring: set<nat> ensures !s.Cycle(c, ring) {
          CycleLeft(s, t, c, ring);
        }
      }
    }
  }

  lemma Small(s: State)
    requires s.Ok()
    ensures (forall x <- s.live :: x < 64) && forall x <- s.freeset :: x < 64
  {
    assert s.Classes();
  }

  lemma Disjoint(s: State, d: nat, u: nat)
    requires s.Ok() && (exists c :: s.Class(c) && d in c && u in c)
    ensures (d in s.gpr <==> u in s.gpr) && (d in s.fpr <==> u in s.fpr)
  {
    assert s.Classes();
  }

  /** Running the code takes every inherited value from its parent register to its target. */
  ghost predicate Delivers(s: State) {
    forall regs: map<nat, int> ::
      (forall m <- s.code :: m.src in regs) && s.goal.Keys <= regs.Keys && s.settled <= regs.Keys ==>
        && (forall p <- s.goal :: s.goal[p] in Exec(s.code, regs) && Exec(s.code, regs)[s.goal[p]] == regs[p])
        && (forall m <- s.settled :: m in Exec(s.code, regs) && Exec(s.code, regs)[m] == regs[m])
  }

  lemma AllMoved(s: State)
    requires s.Ok() && s.live == {}
    ensures Delivers(s)
  {
    hide State.Classes, State.Apart, State.Owned, State.Pending;
    forall regs: map<nat, int> |
      (forall m <- s.code :: m.src in regs) && s.goal.Keys <= regs.Keys && s.settled <= regs.Keys
      ensures forall p <- s.goal :: s.goal[p] in Exec(s.code, regs) && Exec(s.code, regs)[s.goal[p]] == regs[p]
      ensures forall m <- s.settled :: m in Exec(s.code, regs) && Exec(s.code, regs)[m] == regs[m]
    {
      forall p | p in s.goal
        ensures s.goal[p] in Exec(s.code, regs) && Exec(s.code, regs)[s.goal[p]] == regs[p]
      {
        assert s.Cur(p) == p;
        ExecSource(s.code, regs, s.goal[p]);
      }
      forall m | m in s.settled ensures m in Exec(s.code, regs) && Exec(s.code, regs)[m] == regs[m] {
        ExecSource(s.code, regs, m);
      }
    }
  }

  ghost predicate SameOutside(c: set<nat>, a: set<nat>, b: set<nat>) {
    forall x :: x !in c ==> (x in a <==> x in b)
  }

  /** The register allocator at the head of a side trace. */
  class Allocator {
    const gpr: set<nat>
    const fpr: set<nat>
    const sloadins: map<nat, nat>
    var freeset: set<nat>
    var live: set<nat>
    var allow: set<nat>
    var reg: map<nat, nat>
    var cost: map<nat, nat>
    var code: seq<Move>
    ghost const goal: map<nat, nat>
    ghost const settled: set<nat>

    ghost function Now(): State
      reads this
    {
      State(gpr, fpr, sloadins, freeset, live, allow, reg, cost, code, goal, settled)
    }

    /** At the head of the shuffle: no code yet, and the targets are where the instructions are.
        inherited: the parent registers whose value a used instruction inherits, by its register. */
    constructor (gpr: set<nat>, fpr: set<nat>, sloadins: map<nat, nat>, freeset: set<nat>, live: set<nat>,
                 allow: set<nat>, reg: map<nat, nat>, cost: map<nat, nat>, ghost settled: set<nat>)
      requires
        var s := State(gpr, fpr, sloadins, freeset, live, allow, reg, cost, [], map[], settled);
        && s.Classes() && s.Distinct() && s.Apart() && (forall p <- live :: p in sloadins && sloadins[p] in reg)
        && (forall p <- live :: s.(goal := map p <- live :: s.Cur(p)).Pending(p) && s.Owned(p))
      ensures Now() == State(gpr, fpr, sloadins, freeset, live, allow, reg, cost, [],
                             map p | p in live && p in sloadins && sloadins[p] in reg :: reg[sloadins[p]], settled)
      ensures Now().Ok()
    {
      this.gpr, this.fpr, this.sloadins, this.freeset, this.live := gpr, fpr, sloadins, freeset, live;
      this.allow, this.reg, this.cost, this.code, this.settled := allow, reg, cost, [], settled;
      this.goal := map p | p in live && p in sloadins && sloadins[p] in reg :: reg[sloadins[p]];
      new;
      ghost var s := State(gpr, fpr, sloadins, freeset, live, allow, reg, cost, [], map[], settled);
      forall p | p in live ensures Now().Pending(p) && Now().Owned(p) {
        assert s.(goal := map p <- live :: s.Cur(p)).Pending(p) && s.Owned(p);
        if p !in freeset {
          ghost var q: nat :| s.Holds(p, q);
          assert Now().Holds(p, q);
        }
      }
    }

    /** rset_pickbot. */
    method PickBot(s: set<nat>) returns (r: nat)
      requires s != {} && forall x <- s :: x < 64
      ensures r in s && forall x <- s :: r <= x
    {
      r := 0;
      var w :| w in s;
      while r !in s
        invariant r <= w && forall x <- s :: r <= x
        decreases w - r
      {
        r := r + 1;
      }
    }

    /** Moves the value of a free parent register to its target. */
    method Coalesce(rp: nat)
      requires Now().Ok() && rp in live && rp in freeset
      modifies this`live, this`allow, this`freeset, this`code
      ensures Now() == old(Now().Coalesced(rp)) && Now().Ok()
    {
      assert Now().Pending(rp);
      CoalescedOk(Now(), rp);
      var d := reg[sloadins[rp]];
      live := live - {rp};
      allow := allow - {rp};
      freeset := freeset + {d};
      code := code + [Move(d, rp)];
    }

    /** ra_rename: the instruction in register down gets register up instead. */
    method Rename(down: nat, up: nat)
      requires Now().Ok() && down in live && down !in freeset && up in freeset && up in allow && up !in live
      requires (down in gpr <==> up in gpr) && (down in fpr <==> up in fpr)
      modifies this`reg, this`cost, this`freeset, this`code
      ensures down in old(cost) && Now() == old(Now().Renamed(cost[down], down, up)) && Now().Ok()
    {
      assert Now().Owned(down);
      ghost var q: nat :| Now().Holds(down, q);
      RenamedOk(Now(), q, down, up);
      var ref := cost[down];
      cost := cost[up := ref];
      reg := reg[ref := up];
      cost := cost[down := 0];
      freeset := freeset + {down};
      freeset := freeset - {up};
      code := code + [Move(down, up)];
    }

    /** Breaks a cycle of the class c. */
    method Break(c: set<nat>, ghost s: State) returns (ok: bool)
      requires Now().Ok() && Now().Class(c) && live * c != {} && live * c !! freeset
      requires Keeps(s, Now(), gpr) && Keeps(s, Now(), fpr)
      modifies this`reg, this`cost, this`freeset, this`code
      ensures ok <==> old(freeset * allow * c - live) != {}
      ensures Now().Ok() && Keeps(s, Now(), gpr) && Keeps(s, Now(), fpr)
      ensures !ok ==> Now() == old(Now())
      ensures ok ==> live - freeset < old(live - freeset) && SameOutside(c, freeset, old(freeset))
    {
      hide State.Ok, Keeps, State.Pending, State.Slack;
      var tmpset := freeset - live;
      tmpset := tmpset * allow * c;
      if tmpset == {} {
        return false;
      }
      Small(Now());
      var down := PickBot(live * c);
      var up := PickBot(tmpset);
      Disjoint(Now(), down, up);
      RenameKeeping(down, up, s);
      assert down in old(live - freeset) && down !in live - freeset;
      ok := true;
    }

    /** ra_rename, and what it keeps for both classes. */
    method RenameKeeping(down: nat, up: nat, ghost s: State)
      requires Now().Ok() && down in live && down !in freeset && up in freeset && up in allow && up !in live
      requires (down in gpr <==> up in gpr) && (down in fpr <==> up in fpr)
      requires Keeps(s, Now(), gpr) && Keeps(s, Now(), fpr)
      modifies this`reg, this`cost, this`freeset, this`code
      ensures Now().Ok() && Keeps(s, Now(), gpr) && Keeps(s, Now(), fpr)
      ensures freeset == old(freeset) + {down} - {up}
    {
      assert Now().Owned(down);
      hide State.Ok, Keeps, State.Pending, State.Slack;
      ghost var q: nat :| Now().Holds(down, q);
      KeepsRenamed(s, Now(), q, down, up, gpr);
      KeepsRenamed(s, Now(), q, down, up, fpr);
      Rename(down, up);
    }

    /** Coalesces free live registers until there are none. */
    method CoalesceFree(ghost s: State)
      requires Now().Ok() && Keeps(s, Now(), gpr) && Keeps(s, Now(), fpr)
      modifies this`live, this`allow, this`freeset, this`code
      ensures Now().Ok() && Keeps(s, Now(), gpr) && Keeps(s, Now(), fpr)
      ensures live !! freeset && live <= old(live) && (old(live * freeset) != {} ==> live < old(live))
      ensures old(live * freeset) == {} ==> Now() == old(Now())
    {
      hide State.Ok, Keeps, State.Cur, State.Slack;
      var work := freeset * live;
      while work != {}
        invariant Now().Ok() && Keeps(s, Now(), gpr) && Keeps(s, Now(), fpr)
        invariant work == freeset * live && live <= old(live)
        invariant (old(live * freeset) == {} ==> Now() == old(Now()))
                  && (old(live * freeset) != {} ==> live < old(live) || work != {})
        decreases |live|
      {
        Small(Now());
        var rp := PickBot(work);
        KeepsCoalesced(s, Now(), rp, gpr);
        KeepsCoalesced(s, Now(), rp, fpr);
        Coalesce(rp);
        work := freeset * live;
      }
      assert live * freeset == {};
    }

    /** One round of the shuffle loop. */
    method Round(ghost s: State) returns (done: bool, ok: bool)
      requires Now().Ok() && Keeps(s, Now(), gpr) && Keeps(s, Now(), fpr)
      requires s.Slack(gpr) == s.freeset * s.allow * gpr - s.live && s.Slack(fpr) == s.freeset * s.allow * fpr - s.live
      modifies this`live, this`allow, this`reg, this`cost, this`freeset, this`code
      ensures Now().Ok() && Keeps(s, Now(), gpr) && Keeps(s, Now(), fpr)
      ensures done ==> (ok <==> s.Solvable(gpr) && s.Solvable(fpr)) && (ok ==> live == {})
      ensures !done ==> live < old(live) || (live == old(live) && live - freeset < old(live - freeset))
    {
      hide State.Ok, Keeps, State.Slack, State.Solvable;
      CoalesceFree(s);
      label Done:
      Solved(s, Now(), gpr);
      Solved(s, Now(), fpr);
      if live == {} {
        return true, true;
      }
      Classified(Now());
      if live * gpr != {} {
        ok := Break(gpr, s);
        if !ok {
          return true, false;
        }
      }
      assert live * fpr !! freeset;
      ghost var mid := freeset * allow * fpr - live;
      assert mid == old@Done(freeset * allow * fpr - live);
      if live * fpr != {} {
        ok := Break(fpr, s);
        if !ok {
          return true, false;
        }
      }
      done := false;
    }

    /** The shuffle loop: it ends without an error exactly when each class of registers has a spare
        register or no cycle, and then the emitted code is a parallel move. */
    method Shuffle() returns (ok: bool)
      requires Now().Ok() && Now().TargetsKept()
      modifies this`live, this`allow, this`reg, this`cost, this`freeset, this`code
      ensures ok <==> old(Now().Solvable(gpr) && Now().Solvable(fpr))
      ensures ok ==> live == {} && Now().Ok() && Delivers(Now())
    {
      hide State.Ok, Keeps, State.Slack, State.Solvable, Delivers;
      ghost var s := Now();
      KeepsStart(s, gpr);
      KeepsStart(s, fpr);
      var done := false;
      ok := false;
      while !done
        invariant Now().Ok() && Keeps(s, Now(), gpr) && Keeps(s, Now(), fpr)
        invariant done ==> (ok <==> s.Solvable(gpr) && s.Solvable(fpr)) && (ok ==> live == {})
        decreases !done, |live|, |live - freeset|
      {
        ghost var l, f := live, live - freeset;
        done, ok := Round(s);
        if !done {
          Smaller(live, l);
          Smaller(live - freeset, f);
        }
      }
      if ok {
        AllMoved(Now());
      }
    }
  }
}
