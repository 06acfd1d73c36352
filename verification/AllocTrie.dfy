/** The bitwise tries of large free chunks. Chunks of one size form a ring, one member of
    which is the node in the tree; at each node, the next bit of the size selects the child. */
module AllocTrie {
  import opened AllocSizes

  /** ring[0] is the chunk that is linked into the tree; ring[1..] follow it along `fd`. */
  datatype Tree = Empty | Node(ring: seq<nat>, size: nat, child0: Tree, child1: Tree)

  predicate Distinct(ring: seq<nat>) { forall i, j :: 0 <= i < j < |ring| ==> ring[i] != ring[j] }

  /** Chunk a of size s is in the tree. */
  predicate In(t: Tree, a: nat, s: nat) {
    match t
    case Empty => false
    case Node(ring, size, c0, c1) => (s == size && a in ring) || In(c0, a, s) || In(c1, a, s)
  }

  predicate HasSize(t: Tree, s: nat) {
    match t
    case Empty => false
    case Node(_, size, c0, c1) => s == size || HasSize(c0, s) || HasSize(c1, s)
  }

  /** t is a trie of sizes that agree with hi above their k low bits. */
  predicate Trie(t: Tree, k: nat, hi: nat) {
    match t
    case Empty => true
    case Node(ring, size, c0, c1) =>
      && ring != [] && Distinct(ring)
      && Shr(size, k) == hi
      && (if k == 0 then c0.Empty? && c1.Empty? else Trie(c0, k - 1, 2 * hi) && Trie(c1, k - 1, 2 * hi + 1))
      && !HasSize(c0, size) && !HasSize(c1, size)
  }

  lemma {:induction false} InHasSize(t: Tree, a: nat, s: nat)
    requires In(t, a, s)
    ensures HasSize(t, s)
  {
    if !(s == t.size && a in t.ring) {
      if In(t.child0, a, s) {
        InHasSize(t.child0, a, s);
      } else {
        InHasSize(t.child1, a, s);
      }
    }
  }

  lemma {:induction false} SizesShare(t: Tree, k: nat, hi: nat, s: nat)
    requires Trie(t, k, hi) && HasSize(t, s)
    ensures Shr(s, k) == hi
  {
    if s != t.size {
      if HasSize(t.child0, s) {
        SizesShare(t.child0, k - 1, 2 * hi, s);
      } else {
        SizesShare(t.child1, k - 1, 2 * hi + 1, s);
      }
    }
  }

  lemma PrefixStep(s: nat, k: nat, hi: nat)
    requires k > 0 && Shr(s, k) == hi
    ensures Shr(s, k - 1) == 2 * hi + Shr(s, k - 1) % 2
  {
  }

  // ----- insertion --------------------------------------------------------------------

  /** insert_large_chunk: descend by the bits of s to the ring of that size or to a free place. */
  function Insert(t: Tree, k: nat, x: nat, s: nat): Tree
    requires Trie(t, k, Shr(s, k))
    decreases t
  {
    match t
    case Empty => Node([x], s, Empty, Empty)
    case Node(ring, size, c0, c1) =>
      if size == s then Node([ring[0], x] + ring[1..], size, c0, c1)
      else if k == 0 then t
      else if PrefixStep(s, k, Shr(s, k)); Shr(s, k - 1) % 2 == 0 then Node(ring, size, Insert(c0, k - 1, x, s), c1)
      else Node(ring, size, c0, Insert(c1, k - 1, x, s))
  }

  /** Insertion keeps the trie and adds exactly the new chunk. */
  lemma {:induction false} InsertOk(t: Tree, k: nat, x: nat, s: nat)
    requires Trie(t, k, Shr(s, k)) && !In(t, x, s)
    ensures Trie(Insert(t, k, x, s), k, Shr(s, k))
    ensures forall a, r :: In(Insert(t, k, x, s), a, r) <==> In(t, a, r) || (a == x && r == s)
    ensures forall r :: HasSize(Insert(t, k, x, s), r) <==> HasSize(t, r) || r == s
    decreases t
  {
    if t.Node? {
      if t.size == s {
        RingInsert(t.ring, x);
      } else if k > 0 {
        PrefixStep(s, k, Shr(s, k));
        if Shr(s, k - 1) % 2 == 0 {
          InsertOk(t.child0, k - 1, x, s);
        } else {
          InsertOk(t.child1, k - 1, x, s);
        }
      }
    }
  }

  lemma RingInsert(ring: seq<nat>, x: nat)
    requires ring != [] && Distinct(ring) && x !in ring
    ensures var r := [ring[0], x] + ring[1..];
            Distinct(r) && forall a :: a in r <==> a in ring || a == x
  {
    assert ring == [ring[0]] + ring[1..];
  }

  // ----- removal ----------------------------------------------------------------------

  /** The descendant leaf that takes the place of a removed node: right children first. */
  function Leaf(t: Tree): (l: Tree)
    requires t.Node?
    ensures l.Node?
  {
    if t.child1.Node? then Leaf(t.child1) else if t.child0.Node? then Leaf(t.child0) else t
  }

  function WithoutLeaf(t: Tree): Tree
    requires t.Node?
  {
    if t.child1.Node? then t.(child1 := WithoutLeaf(t.child1))
    else if t.child0.Node? then t.(child0 := WithoutLeaf(t.child0))
    else Empty
  }

  lemma {:induction false} LeafOk(t: Tree, k: nat, hi: nat)
    requires t.Node? && Trie(t, k, hi)
    ensures var l := Leaf(t);
            && l.Node? && l.ring != [] && Distinct(l.ring) && Shr(l.size, k) == hi
            && Trie(WithoutLeaf(t), k, hi) && !HasSize(WithoutLeaf(t), l.size)
            && (forall a, r :: In(t, a, r) <==> In(WithoutLeaf(t), a, r) || (a in l.ring && r == l.size))
            && (forall r :: HasSize(t, r) <==> HasSize(WithoutLeaf(t), r) || r == l.size)
  {
    if t.child1.Node? {
      LeafOk(t.child1, k - 1, 2 * hi + 1);
      LeafApart(t, k, hi, Leaf(t).size);
    } else if t.child0.Node? {
      LeafOk(t.child0, k - 1, 2 * hi);
      LeafApart(t, k, hi, Leaf(t).size);
    }
  }

  /** The two children of a node have no size in common. */
  lemma LeafApart(t: Tree, k: nat, hi: nat, s: nat)
    requires t.Node? && Trie(t, k, hi)
    ensures !(HasSize(t.child0, s) && HasSize(t.child1, s))
  {
    if HasSize(t.child0, s) && HasSize(t.child1, s) {
      SizesShare(t.child0, k - 1, 2 * hi, s);
      SizesShare(t.child1, k - 1, 2 * hi + 1, s);
    }
  }

  /** unlink_large_chunk. A ring member just leaves the ring; the tree node is replaced by the
      last of its ring, or by a leaf below it, or vanishes. */
  function Remove(t: Tree, k: nat, x: nat, s: nat): Tree
    requires Trie(t, k, Shr(s, k)) && In(t, x, s)
    decreases t
  {
    var Node(ring, size, c0, c1) := t;
    if size == s then
      RingHere(t, k, x, s);
      if |ring| > 1 then Node(RingRemove(ring, x), size, c0, c1)
      else if c1.Node? then var l := Leaf(c1); Node(l.ring, l.size, c0, WithoutLeaf(c1))
      else if c0.Node? then var l := Leaf(c0); Node(l.ring, l.size, WithoutLeaf(c0), c1)
      else Empty
    else
      SideOf(t, k, x, s);
      if Shr(s, k - 1) % 2 == 0 then Node(ring, size, Remove(c0, k - 1, x, s), c1)
      else Node(ring, size, c0, Remove(c1, k - 1, x, s))
  }

  function RingRemove(ring: seq<nat>, x: nat): seq<nat>
    requires |ring| > 1 && x in ring
  {
    if x == ring[0] then [ring[|ring| - 1]] + ring[1..|ring| - 1] else Drop(ring, x)
  }

  function Drop(ring: seq<nat>, x: nat): seq<nat> {
    if ring == [] then [] else if ring[0] == x then ring[1..] else [ring[0]] + Drop(ring[1..], x)
  }

  lemma {:induction false} DropOk(ring: seq<nat>, x: nat)
    requires Distinct(ring)
    ensures Distinct(Drop(ring, x)) && forall a :: a in Drop(ring, x) <==> a in ring && a != x
    ensures x in ring ==> |Drop(ring, x)| == |ring| - 1
  {
    if ring != [] {
      var tail := ring[1..];
      assert ring == [ring[0]] + tail;
      assert Distinct(tail);
      if ring[0] != x {
        DropOk(tail, x);
        assert ring[0] !in tail;
      }
    }
  }

  lemma RingRemoveOk(ring: seq<nat>, x: nat)
    requires |ring| > 1 && x in ring && Distinct(ring)
    ensures var r := RingRemove(ring, x); r != [] && Distinct(r) && forall a :: a in r <==> a in ring && a != x
  {
    if x == ring[0] {
      var n := |ring|;
      var mid := ring[1..n - 1];
      assert ring == [ring[0]] + mid + [ring[n - 1]];
      assert forall a :: a in ring <==> a == ring[0] || a in mid || a == ring[n - 1];
      assert ring[0] !in mid && ring[0] != ring[n - 1];
    } else {
      DropOk(ring, x);
    }
  }

  lemma RingHere(t: Tree, k: nat, x: nat, s: nat)
    requires Trie(t, k, Shr(s, k)) && In(t, x, s) && t.size == s
    ensures x in t.ring
  {
    if In(t.child0, x, s) {
      InHasSize(t.child0, x, s);
    }
    if In(t.child1, x, s) {
      InHasSize(t.child1, x, s);
    }
  }

  lemma SideOf(t: Tree, k: nat, x: nat, s: nat)
    requires Trie(t, k, Shr(s, k)) && In(t, x, s) && t.size != s
    ensures k > 0
    ensures if Shr(s, k - 1) % 2 == 0 then Trie(t.child0, k - 1, Shr(s, k - 1)) && In(t.child0, x, s)
            else Trie(t.child1, k - 1, Shr(s, k - 1)) && In(t.child1, x, s)
  {
    PrefixStep(s, k, Shr(s, k));
    if In(t.child0, x, s) {
      InHasSize(t.child0, x, s);
      SizesShare(t.child0, k - 1, 2 * Shr(s, k), s);
    } else {
      InHasSize(t.child1, x, s);
      SizesShare(t.child1, k - 1, 2 * Shr(s, k) + 1, s);
    }
  }

  /** Removal keeps the trie and takes out exactly the one chunk. */
  lemma {:induction false} RemoveOk(t: Tree, k: nat, x: nat, s: nat)
    requires Trie(t, k, Shr(s, k)) && In(t, x, s)
    ensures var t' := Remove(t, k, x, s);
            && Trie(t', k, Shr(s, k))
            && (forall a, r :: In(t', a, r) <==> In(t, a, r) && !(a == x && r == s))
            && (forall r :: HasSize(t', r) ==> HasSize(t, r))
    decreases t
  {
    if t.size == s {
      RemoveHere(t, k, x, s);
    } else {
      SideOf(t, k, x, s);
      RemoveBelow(t, k, x, s);
    }
  }

  lemma RemoveBelow(t: Tree, k: nat, x: nat, s: nat)
    requires Trie(t, k, Shr(s, k)) && In(t, x, s) && t.size != s && k > 0
    ensures var t' := Remove(t, k, x, s);
            && Trie(t', k, Shr(s, k))
            && (forall a, r :: In(t', a, r) <==> In(t, a, r) && !(a == x && r == s))
            && (forall r :: HasSize(t', r) ==> HasSize(t, r))
    decreases t, 0
  {
    SideOf(t, k, x, s);
    if Shr(s, k - 1) % 2 == 0 {
      RemoveOk(t.child0, k - 1, x, s);
      LeafApart(t, k, Shr(s, k), s);
      NotThere(t.child1, s);
      InHasSize(t.child0, x, s);
    } else {
      RemoveOk(t.child1, k - 1, x, s);
      LeafApart(t, k, Shr(s, k), s);
      NotThere(t.child0, s);
      InHasSize(t.child1, x, s);
    }
  }

  lemma NotThere(t: Tree, s: nat)
    ensures !HasSize(t, s) ==> forall a :: !In(t, a, s)
  {
    forall a | In(t, a, s) ensures HasSize(t, s) { InHasSize(t, a, s); }
  }

  lemma RemoveHere(t: Tree, k: nat, x: nat, s: nat)
    requires Trie(t, k, Shr(s, k)) && In(t, x, s) && t.size == s
    ensures var t' := Remove(t, k, x, s);
            && Trie(t', k, Shr(s, k))
            && (forall a, r :: In(t', a, r) <==> In(t, a, r) && !(a == x && r == s))
            && (forall r :: HasSize(t', r) ==> HasSize(t, r))
  {
    RingHere(t, k, x, s);
    NotThere(t.child0, s);
    NotThere(t.child1, s);
    if |t.ring| > 1 {
      RingRemoveOk(t.ring, x);
    } else {
      assert t.ring == [x];
      if t.child1.Node? {
        LeafOk(t.child1, k - 1, 2 * Shr(s, k) + 1);
        LeafApart(t, k, Shr(s, k), Leaf(t.child1).size);
      } else if t.child0.Node? {
        LeafOk(t.child0, k - 1, 2 * Shr(s, k));
      }
    }
  }

  // ----- the order of sizes -----------------------------------------------------------

  function MinSize(t: Tree): nat
    requires t.Node?
  {
    var l := Leftmost(t);
    if l.Node? && MinSize(l) < t.size then MinSize(l) else t.size
  }

  /** leftmost_child. */
  function Leftmost(t: Tree): Tree
    requires t.Node?
  {
    if t.child0.Node? then t.child0 else t.child1
  }

  /** The smallest size of a trie lies on its leftmost path. */
  lemma {:induction false} MinIsLeast(t: Tree, k: nat, hi: nat)
    requires t.Node? && Trie(t, k, hi)
    ensures HasSize(t, MinSize(t)) && forall s :: HasSize(t, s) ==> MinSize(t) <= s
  {
    if k > 0 {
      if t.child0.Node? {
        MinIsLeast(t.child0, k - 1, 2 * hi);
        forall s: nat | HasSize(t.child1, s) ensures MinSize(t.child0) <= s {
          SizesShare(t.child1, k - 1, 2 * hi + 1, s);
          SizesShare(t.child0, k - 1, 2 * hi, MinSize(t.child0));
          if s < MinSize(t.child0) {
            ShrMonotone(s, MinSize(t.child0), k - 1);
          }
        }
      } else if t.child1.Node? {
        MinIsLeast(t.child1, k - 1, 2 * hi + 1);
      }
    }
  }
}
