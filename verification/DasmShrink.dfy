/** The layout that dasm_link computes: one forward pass over estimated offsets that shrinks
    branches and alignment. */
module DasmShrink {

  /** What an action takes up in the code. Jump: the 32-bit displacement field of a branch, what
      the branch can shrink by, and the index of the label's cell (negative: not in this code). */
  datatype Cell = Plain(size: nat) | Mark | Jump(shrink: nat, target: int) | Pad(mask: nat)

  /** The most bytes that it can take up. */
  function Most(c: Cell): nat {
    match c
    case Plain(n) => n
    case Mark => 0
    case Jump(_, _) => 4
    case Pad(m) => m
  }

  function Sum(s: seq<nat>, k: nat): nat
    requires k <= |s|
  {
    if k == 0 then 0 else Sum(s, k - 1) + s[k - 1]
  }

  /** The estimated offset of cell k. */
  function Guess(cells: seq<Cell>, k: nat): nat
    requires k <= |cells|
  {
    if k == 0 then 0 else Guess(cells, k - 1) + Most(cells[k - 1])
  }

  /** The final offset of cell k, when each cell before it saves the bytes that cuts says. */
  function At(cells: seq<Cell>, cuts: seq<nat>, k: nat): int
    requires k <= |cells| && k <= |cuts|
  {
    Guess(cells, k) - Sum(cuts, k)
  }

  /** The short form is taken when this distance is in range: the estimate for a label ahead, the
      exact distance, as if the branch were long, for one behind. */
  function Distance(cells: seq<Cell>, cuts: seq<nat>, k: nat, target: nat): int
    requires k < |cells| && k <= |cuts| && target < |cells|
  {
    if target > k then Guess(cells, target) - Guess(cells, k + 1)
        else At(cells, cuts, target) - (At(cells, cuts, k) + 4)
  }

  predicate Short(cells: seq<Cell>, cuts: seq<nat>, k: nat)
    requires k < |cells| && k <= |cuts| && cells[k].Jump?
  {
    var t, s := cells[k].target, cells[k].shrink;
    s > 0 && 0 <= t < |cells| && -128 - s <= Distance(cells, cuts, k, t) <= 127
  }

  /** What cell k saves. */
  function CutOf(cells: seq<Cell>, cuts: seq<nat>, k: nat): nat
    requires k < |cells| && k <= |cuts|
  {
    match cells[k]
    case Pad(m) => (At(cells, cuts, k) + m) % (m + 1)
    case Jump(s, _) => if Short(cells, cuts, k) then s else 0
    case _ => 0
  }

  /** A program that branches can be shrunk in: by at most their displacement field, and to labels. */
  ghost predicate WellFormed(cells: seq<Cell>) {
    forall k {:trigger cells[k]} :: 0 <= k < |cells| && cells[k].Jump? ==>
      cells[k].shrink <= 4 && (0 <= cells[k].target < |cells| ==> cells[cells[k].target].Mark?)
  }

  ghost predicate Decided(cells: seq<Cell>, cuts: seq<nat>) {
    && |cuts| == |cells|
    && forall k {:trigger cuts[k]} :: 0 <= k < |cells| ==> cuts[k] == CutOf(cells, cuts[..k], k)
  }

  lemma {:induction false} SumPrefix(s: seq<nat>, j: nat, k: nat)
    requires k <= j <= |s|
    ensures Sum(s[..j], k) == Sum(s, k)
    decreases k
  {
    if k > 0 {
      SumPrefix(s, j, k - 1);
    }
  }

  /** The decision for cell k does not look at later ones. */
  lemma CutOfPrefix(cells: seq<Cell>, cuts: seq<nat>, k: nat)
    requires k < |cells| && k <= |cuts|
    ensures CutOf(cells, cuts[..k], k) == CutOf(cells, cuts, k)
  {
    SumPrefix(cuts, k, k);
    if cells[k].Jump? && 0 <= cells[k].target <= k {
      SumPrefix(cuts, k, cells[k].target);
    }
  }

  lemma DecidedAt(cells: seq<Cell>, cuts: seq<nat>, k: nat)
    requires Decided(cells, cuts) && k < |cells|
    ensures cuts[k] == CutOf(cells, cuts, k)
    ensures At(cells, cuts, k + 1) == At(cells, cuts, k) + Most(cells[k]) - cuts[k]
  {
    CutOfPrefix(cells, cuts, k);
  }

  /** No cell ends before it starts. */
  lemma StepForward(cells: seq<Cell>, cuts: seq<nat>, k: nat)
    requires WellFormed(cells) && Decided(cells, cuts) && k < |cells|
    ensures At(cells, cuts, k) <= At(cells, cuts, k + 1)
  {
    DecidedAt(cells, cuts, k);
    if cells[k].Pad? {
      var m := cells[k].mask;
      assert 0 <= (At(cells, cuts, k) + m) % (m + 1) < m + 1;
    }
  }

  lemma {:induction false} InSequence(cells: seq<Cell>, cuts: seq<nat>, j: nat, k: nat)
    requires WellFormed(cells) && Decided(cells, cuts) && j <= k <= |cells|
    ensures At(cells, cuts, j) <= At(cells, cuts, k)
    decreases k - j
  {
    if j < k {
      StepForward(cells, cuts, j);
      InSequence(cells, cuts, j + 1, k);
    }
  }

  lemma {:induction false} SumGrows(s: seq<nat>, j: nat, k: nat)
    requires j <= k <= |s|
    ensures Sum(s, j) <= Sum(s, k)
    decreases k - j
  {
    if j < k {
      SumGrows(s, j + 1, k);
    }
  }

  /** Final distances never exceed estimated ones. */
  lemma NoFarther(cells: seq<Cell>, cuts: seq<nat>, j: nat, k: nat)
    requires j <= k <= |cells| == |cuts|
    ensures At(cells, cuts, k) - At(cells, cuts, j) <= Guess(cells, k) - Guess(cells, j)
  {
    SumGrows(cuts, j, k);
  }

  /** A branch that was shrunk reaches its label with a byte: the distance from the end of the
      short branch to the label, ahead or behind, whatever is shrunk or aligned between. */
  lemma ShrinkSound(cells: seq<Cell>, cuts: seq<nat>, k: nat)
    requires WellFormed(cells) && Decided(cells, cuts) && k < |cells| && cells[k].Jump? && cuts[k] > 0
    ensures 0 <= cells[k].target < |cells|
    ensures -128 <= At(cells, cuts, cells[k].target) - At(cells, cuts, k + 1) <= 127
  {
    DecidedAt(cells, cuts, k);
    var t := cells[k].target;
    if t > k {
      NoFarther(cells, cuts, k + 1, t);
      InSequence(cells, cuts, k + 1, t);
    } else {
      InSequence(cells, cuts, t, k);
      StepForward(cells, cuts, k);
    }
  }

  /** Padding ends at the next multiple of the alignment. */
  lemma PadAligns(cells: seq<Cell>, cuts: seq<nat>, k: nat)
    requires WellFormed(cells) && Decided(cells, cuts) && k < |cells| && cells[k].Pad?
    ensures var x, y, n := At(cells, cuts, k), At(cells, cuts, k + 1), cells[k].mask + 1;
            x <= y < x + n && y % n == 0
  {
    DecidedAt(cells, cuts, k);
    var x, n := At(cells, cuts, k), cells[k].mask + 1;
    ModSub(x + n - 1, n);
  }

  lemma ModSub(z: int, n: nat)
    requires n > 0
    ensures (z - z % n) % n == 0
  {
    var q := z / n;
    assert z == q * n + z % n;
    MultipleMod(q, n);
  }

  lemma MultipleMod(q: int, n: nat)
    requires n > 0
    ensures q * n % n == 0
  {
    var r := q * n % n;
    var d := q * n / n;
    assert q * n == d * n + r;
    assert (q - d) * n == r;
    MulMore(if q > d then q - d else if d > q then d - q else 1, n);
  }

  lemma MulMore(a: int, n: nat)
    requires a >= 1
    ensures a * n >= n
  {
  }

  /** The displacement is right for the branches that stay long, too: 32 bits hold it whenever the
      code is not larger than that. */
  lemma LongReaches(cells: seq<Cell>, cuts: seq<nat>, k: nat, t: nat)
    requires WellFormed(cells) && Decided(cells, cuts) && k < |cells| && t < |cells|
    requires At(cells, cuts, |cells|) < 0x8000_0000
    ensures -0x8000_0000 <= At(cells, cuts, t) - At(cells, cuts, k + 1) < 0x8000_0000
  {
    InSequence(cells, cuts, 0, t);
    InSequence(cells, cuts, t, |cells|);
    InSequence(cells, cuts, 0, k + 1);
    InSequence(cells, cuts, k + 1, |cells|);
  }
}
