/** The third pass: the bytes of each item, and where they are. */
module DasmEmit {
  import opened DasmShrink
  import opened DasmActions
  import opened DasmFlat

  /** The low w bytes of n, least significant first. */
  function Little(n: int, w: nat): (r: seq<nat>)
    ensures |r| == w
    decreases w
  {
    if w == 0 then [] else [n % 256] + Little(n / 256, w - 1)
  }

  function Pow256(w: nat): (r: nat)
    ensures r > 0
  {
     if w == 0 then 1 else 256 * Pow256(w - 1)
  }

  /** The number that bytes stand for. */
  function Value(s: seq<nat>): nat { if s == [] then 0 else s[0] + 256 * Value(s[1..]) }

  /** Bytes read back as the number, modulo their range. */
  lemma {:induction false} LittleValue(n: int, w: nat)
    ensures Value(Little(n, w)) == n % Pow256(w)
    decreases w
  {
    if w > 0 {
      LittleValue(n / 256, w - 1);
      ModSplit(n, Pow256(w - 1));
      assert Little(n, w)[1..] == Little(n / 256, w - 1);
    }
  }

  lemma ModSplit(n: int, p: nat)
    requires p > 0
    ensures n % (256 * p) == n % 256 + 256 * (n / 256 % p)
  {
    var q := n / 256;
    var m := q / p;
    assert q == m * p + q % p;
    assert n == 256 * q + n % 256;
    assert n == (256 * p) * m + (n % 256 + 256 * (q % p));
    ModOf(n, 256 * p, m, n % 256 + 256 * (q % p));
  }

  lemma ModOf(n: int, d: nat, q: int, r: nat)
    requires n == d * q + r && r < d
    ensures n % d == r
  {
    var q2, r2 := n / d, n % d;
    assert n == d * q2 + r2;
    assert (q - q2) * d == r2 - r;
    MulMore(if q > q2 then q - q2 else if q2 > q then q2 - q else 1, d);
  }

  // ----- where the bytes are ------------------------------------------------------------------

  /** A finished layout, the address it is for, and the addresses of global labels. */
  datatype Layout = Layout(f: seq<Item>, cells: seq<Cell>, cuts: seq<nat>, b0: map<nat, int>, base: int,
                           globals: map<nat, int>)

  ghost predicate LayoutOk(lists: seq<seq<Action>>, y: Layout) {
    |y.f| == |y.cells| == |y.cuts| && y.cells == CellsOf(lists, y.f, y.b0) && WellFormed(y.cells)
        && Decided(y.cells, y.cuts)
  }

  /** The offset of item k. */
  function A(y: Layout, k: nat): int { if k <= |y.cells| && k <= |y.cuts| then At(y.cells, y.cuts, k) else 0 }

  function Extern(y: Layout, n: int): int { if n >= 0 && n in y.globals then y.globals[n] else 0 }

  /** The offset of the label item at position x. */
  function LabelOfs(lists: seq<seq<Action>>, y: Layout, x: int): int {
    var t := FindLabel(lists, y.f, x, 0);
    if t >= 0 then A(y, t) else 0
  }

  function Link(y: Layout, j: nat): int
    requires j < |y.f|
  {
    if y.f[j].slot in y.b0 then y.b0[y.f[j].slot] else 0
  }

  /** What the branch at item j has to add to the address behind it. */
  function Disp(lists: seq<seq<Action>>, y: Layout, j: nat): int
    requires j < |y.f|
  {
    if Link(y, j) < 0 then Extern(y, -Link(y, j)) - (y.base + A(y, j + 1))
        else LabelOfs(lists, y, Link(y, j)) - A(y, j + 1)
  }

  /** The address that item j refers to. */
  function Address(lists: seq<seq<Action>>, y: Layout, j: nat): int
    requires j < |y.f|
  {
    if Link(y, j) < 0 then Extern(y, -Link(y, j)) else y.base + LabelOfs(lists, y, Link(y, j))
  }

  /** Item j is a branch that was shrunk. */
  predicate ShrunkAt(lists: seq<seq<Action>>, y: Layout, j: nat) {
    j < |y.f| && j < |y.cuts| && Rel(Act(lists, y.f[j])) && y.cuts[j] > 0
  }

  /** The opcode byte at item j is replaced by a branch before item k. */
  predicate Eaten(lists: seq<seq<Action>>, y: Layout, j: nat, k: nat) {
    (j + 1 < k && ShrunkAt(lists, y, j + 1)) || (j + 2 < k && ShrunkAt(lists, y, j + 2) && y.cuts[j + 2] == 4)
  }

  /** The bytes of item j are in the code; items before k have been encoded. */
  ghost predicate Placed(lists: seq<seq<Action>>, y: Layout, out: seq<nat>, j: nat, k: nat)
    requires j < |y.f|
  {
    var act := Act(lists, y.f[j]);
    var lo, hi := A(y, j), A(y, j + 1);
    && 0 <= lo <= hi <= |out|
    && (act.Byte? ==> lo < |out| || Eaten(lists, y, j, k))
    && (act.Byte? && !Eaten(lists, y, j, k) ==> out[lo] == act.v)
    && (act.Imm? ==> out[lo..hi] == Little(y.f[j].arg, WidthOf(act.w)))
    && (act.Space? ==> forall x :: lo <= x < hi ==> out[x] == act.fill)
    && (act.Align? ==> forall x :: lo <= x < hi ==> out[x] == 0x90)
    && (Refers(act) && !Rel(act) ==> out[lo..hi] == Little(Address(lists, y, j), 4))
    && (Rel(act) && !ShrunkAt(lists, y, j) ==> out[lo..hi] == Little(Disp(lists, y, j), 4))
    && (ShrunkAt(lists, y, j) ==>
          hi >= 2 && out[hi - 1] == Disp(lists, y, j) % 256
          && out[hi - 2] == if y.cuts[j] == 3 then 0xeb else OpBefore(lists, y.f, j) - 0x10)
  }

  ghost predicate AllPlaced(lists: seq<seq<Action>>, y: Layout, out: seq<nat>, k: nat) {
    && k <= |y.f| && |out| == A(y, k)
    && forall j: nat {:trigger y.f[j]} :: j < k ==> Placed(lists, y, out, j, k)
  }

  /** Bytes below hi stay, so items that end there stay placed. */
  lemma PlacedStays(lists: seq<seq<Action>>, y: Layout, out: seq<nat>, out2: seq<nat>, j: nat, k: nat, hi: nat)
    requires j < k && j < |y.f| && Placed(lists, y, out, j, k) && A(y, j + 1) <= hi <= |out| && hi <= |out2|
             && out2[..hi] == out[..hi]
    requires Act(lists, y.f[j]).Byte? ==> A(y, j) < hi
    ensures Placed(lists, y, out2, j, k + 1)
  {
    var lo, up := A(y, j), A(y, j + 1);
    assert forall x :: 0 <= x < hi ==> out2[x] == out2[..hi][x] == out[..hi][x] == out[x];
    assert out2[lo..up] == out[lo..up];
  }

  lemma ByteCell(lists: seq<seq<Action>>, y: Layout, j: nat)
    requires LayoutOk(lists, y) && j < |y.f|
    ensures A(y, j + 1) == A(y, j) + Most(y.cells[j]) - y.cuts[j] && A(y, j) <= A(y, j + 1)
    ensures Act(lists, y.f[j]).Byte? ==> A(y, j + 1) == A(y, j) + 1
    ensures y.cells[j] == CellOf(lists, y.f, y.b0, j)
  {
    DecidedAt(y.cells, y.cuts, j);
    StepForward(y.cells, y.cuts, j);
  }

  lemma InOrder(lists: seq<seq<Action>>, y: Layout, j: nat, k: nat)
    requires LayoutOk(lists, y) && j <= k <= |y.f|
    ensures 0 <= A(y, j) <= A(y, k)
  {
    InSequence(y.cells, y.cuts, j, k);
    InSequence(y.cells, y.cuts, 0, j);
  }

  /** Item k has been encoded; the last d bytes, opcodes of item k, may have been replaced. */
  lemma EmitStep(lists: seq<seq<Action>>, y: Layout, out: seq<nat>, out2: seq<nat>, k: nat, d: nat)
    requires LayoutOk(lists, y) && AllPlaced(lists, y, out, k) && k < |y.f| && d <= k && d <= |out|
    requires |out2| == A(y, k + 1) && |out| - d <= |out2| && out2[..|out| - d] == out[..|out| - d]
    requires forall j: nat :: k - d <= j < k ==> Act(lists, y.f[j]).Byte? && Eaten(lists, y, j, k + 1)
    requires d <= 2 && Placed(lists, y, out2, k, k + 1)
    ensures AllPlaced(lists, y, out2, k + 1)
  {
    hide LayoutOk, Act, A, Placed, Eaten;
    BytesBack(lists, y, k, d);
    var k2 := k + 1;
    forall j: nat | j < k2 ensures Placed(lists, y, out2, j, k2) {
      if j < k - d {
        assert y.f[j] == y.f[j];
        InOrder(lists, y, j + 1, k - d);
        ByteCell(lists, y, j);
        PlacedStays(lists, y, out, out2, j, k, |out| - d);
      } else if j < k {
        EatenPlaced(lists, y, out2, j, k);
      }
    }
  }

  lemma BytesBack(lists: seq<seq<Action>>, y: Layout, k: nat, d: nat)
    requires LayoutOk(lists, y) && d <= k < |y.f| && d <= 2
    requires forall j: nat :: k - d <= j < k ==> Act(lists, y.f[j]).Byte?
    ensures A(y, k - d) + d == A(y, k)
  {
    hide LayoutOk, A, Act;
    if d > 0 {
      ByteCell(lists, y, k - 1);
    }
    if d > 1 {
      ByteCell(lists, y, k - 2);
    }
  }

  lemma EatenPlaced(lists: seq<seq<Action>>, y: Layout, out2: seq<nat>, j: nat, k: nat)
    requires LayoutOk(lists, y) && j < k < |y.f| && |out2| == A(y, k + 1) && Act(lists, y.f[j]).Byte?
             && Eaten(lists, y, j, k + 1)
    ensures Placed(lists, y, out2, j, k + 1)
  {
    hide LayoutOk, A, Eaten, Disp, Address, Act;
    InOrder(lists, y, j, j + 1);
    InOrder(lists, y, j + 1, k + 1);
  }

  // ----- the kinds of items ---------------------------------------------------------------------

  /** Items that bytes are only appended for. */
  lemma EmitMore(lists: seq<seq<Action>>, y: Layout, out: seq<nat>, bytes: seq<nat>, k: nat)
    requires LayoutOk(lists, y) && AllPlaced(lists, y, out, k) && k < |y.f| && A(y, k + 1) == A(y, k) + |bytes|
             && !ShrunkAt(lists, y, k)
    requires var act := Act(lists, y.f[k]);
             && (act.Byte? ==> bytes == [act.v])
             && (act.Imm? ==> bytes == Little(y.f[k].arg, WidthOf(act.w)))
             && (act.Space? ==> forall x :: 0 <= x < |bytes| ==> bytes[x] == act.fill)
             && (act.Align? ==> forall x :: 0 <= x < |bytes| ==> bytes[x] == 0x90)
             && (Refers(act) && !Rel(act) ==> bytes == Little(Address(lists, y, k), 4))
             && (Rel(act) ==> bytes == Little(Disp(lists, y, k), 4))
    ensures AllPlaced(lists, y, out + bytes, k + 1)
  {
    hide LayoutOk, Disp, Address, Act, Little, A, ShrunkAt;
    var out2 := out + bytes;
    InOrder(lists, y, k, k + 1);
    assert out2[A(y, k)..A(y, k + 1)] == bytes;
    NotEaten(lists, y, k);
    assert forall x :: A(y, k) <= x < A(y, k + 1) ==> out2[x] == bytes[x - A(y, k)];
    assert Placed(lists, y, out2, k, k + 1);
    EmitStep(lists, y, out, out2, k, 0);
  }

  lemma NotEaten(lists: seq<seq<Action>>, y: Layout, k: nat)
    ensures !Eaten(lists, y, k, k + 1)
  {
  }

  /** A shrunk branch: its opcode bytes are replaced, and a byte of displacement follows. */
  lemma EmitShort(lists: seq<seq<Action>>, y: Layout, out: seq<nat>, out2: seq<nat>, k: nat)
    requires LayoutOk(lists, y) && AllPlaced(lists, y, out, k) && k < |y.f| && ShrunkAt(lists, y, k)
    requires var d := if y.cuts[k] == 3 then 1 else 2;
             && d <= k && d <= |out| && Act(lists, y.f[k - 1]).Byte? && (d == 2 ==> Act(lists, y.f[k - 2]).Byte?)
             && (y.cuts[k] == 3 || y.cuts[k] == 4)
             && out2 == out[..|out| - d] + [if d == 1 then 0xeb else OpBefore(lists, y.f, k) - 0x10]
                  + [Disp(lists, y, k) % 256]
    ensures AllPlaced(lists, y, out2, k + 1)
  {
    hide Disp, Address, Act, A, LayoutOk;
    var d := if y.cuts[k] == 3 then 1 else 2;
    ShortSize(lists, y, k);
    InOrder(lists, y, k, k + 1);
    assert out2[..|out| - d] == out[..|out| - d];
    assert Placed(lists, y, out2, k, k + 1);
    EmitStep(lists, y, out, out2, k, d);
  }

  lemma ShortSize(lists: seq<seq<Action>>, y: Layout, k: nat)
    requires LayoutOk(lists, y) && k < |y.f| && ShrunkAt(lists, y, k)
    ensures A(y, k + 1) == A(y, k) + 4 - y.cuts[k] && !Act(lists, y.f[k]).Byte? && !Act(lists, y.f[k]).Imm?
            && !Act(lists, y.f[k]).Space? && !Act(lists, y.f[k]).Align?
  {
    ByteCell(lists, y, k);
  }

  // ----- global labels ----------------------------------------------------------------------------

  /** Item j defines the global label idx. */
  predicate Defines(lists: seq<seq<Action>>, y: Layout, j: nat, idx: nat) {
    j < |y.f| && Act(lists, y.f[j]) == LabelLg(idx) && idx >= 10
  }

  /** No item from j up to k defines idx. */
  ghost predicate NoneIn(lists: seq<seq<Action>>, y: Layout, j: nat, k: nat, idx: nat) {
    forall j2: nat {:trigger Defines(lists, y, j2, idx)} :: j <= j2 < k ==> !Defines(lists, y, j2, idx)
  }

  ghost predicate DefinedAt(lists: seq<seq<Action>>, y: Layout, k: nat, g: map<nat, int>, j: nat, idx: nat) {
    j < k && Defines(lists, y, j, idx) && NoneIn(lists, y, j + 1, k, idx) ==> idx in g && g[idx] == y.base + A(y, j)
  }

  ghost predicate Untouched(lists: seq<seq<Action>>, y: Layout, k: nat, g: map<nat, int>, idx: nat) {
    NoneIn(lists, y, 0, k, idx) ==> (idx in g <==> idx in y.globals) && (idx in g ==> g[idx] == y.globals[idx])
  }

  /** The array of globals when the items before k have been encoded: the latest definition there,
      or what was there before. */
  ghost predicate GlobalsOk(lists: seq<seq<Action>>, y: Layout, k: nat, g: map<nat, int>) {
    && (forall j: nat, idx: nat {:trigger DefinedAt(lists, y, k, g, j, idx)} :: DefinedAt(lists, y, k, g, j, idx))
    && (forall idx: nat {:trigger Untouched(lists, y, k, g, idx)} :: Untouched(lists, y, k, g, idx))
  }

  function GlobalsAfter(lists: seq<seq<Action>>, y: Layout, k: nat, g: map<nat, int>): map<nat, int>
    requires k < |y.f|
  {
    if Act(lists, y.f[k]).LabelLg? && Act(lists, y.f[k]).n >= 10 then g[Act(lists, y.f[k]).n := y.base + A(y, k)] else g
  }

  lemma GlobalsMore(lists: seq<seq<Action>>, y: Layout, k: nat, g: map<nat, int>)
    requires GlobalsOk(lists, y, k, g) && k < |y.f|
    ensures GlobalsOk(lists, y, k + 1, GlobalsAfter(lists, y, k, g))
  {
    var g2, k2 := GlobalsAfter(lists, y, k, g), k + 1;
    forall j: nat, idx: nat ensures DefinedAt(lists, y, k2, g2, j, idx) {
      DefinedMore(lists, y, k, g, j, idx);
    }
    forall idx: nat ensures Untouched(lists, y, k2, g2, idx) {
      UntouchedMore(lists, y, k, g, idx);
    }
  }

  lemma DefinedMore(lists: seq<seq<Action>>, y: Layout, k: nat, g: map<nat, int>, j: nat, idx: nat)
    requires GlobalsOk(lists, y, k, g) && k < |y.f|
    ensures DefinedAt(lists, y, k + 1, GlobalsAfter(lists, y, k, g), j, idx)
  {
    hide A;
    assert DefinedAt(lists, y, k, g, j, idx);
    if j < k && Defines(lists, y, j, idx) && NoneIn(lists, y, j + 1, k + 1, idx) {
      assert !Defines(lists, y, k, idx);
    }
  }

  lemma UntouchedMore(lists: seq<seq<Action>>, y: Layout, k: nat, g: map<nat, int>, idx: nat)
    requires GlobalsOk(lists, y, k, g) && k < |y.f|
    ensures Untouched(lists, y, k + 1, GlobalsAfter(lists, y, k, g), idx)
  {
    hide A;
    assert Untouched(lists, y, k, g, idx);
    if NoneIn(lists, y, 0, k + 1, idx) {
      assert !Defines(lists, y, k, idx);
    }
  }
}
