/** table.sort: an in-place quicksort with a median of three, that recurses on the smaller part. */
module LuaSort {

  /** No greater: the second does not come before the first. */
  predicate Le<T>(lt: (T, T) -> bool, x: T, y: T) {
    !lt(y, x)
  }

  /** The comparison is a strict weak order on the elements. */
  ghost predicate StrictWeak<T>(lt: (T, T) -> bool, e: seq<T>) {
    && (forall x <- e :: !lt(x, x))
    && (forall x <- e, y <- e, z <- e :: lt(x, y) && lt(y, z) ==> lt(x, z))
    && (forall x <- e, y <- e, z <- e :: Le(lt, x, y) && Le(lt, y, x) && Le(lt, y, z) && Le(lt, z, y) ==> Le(lt, x, z))
  }

  lemma LtLe<T>(lt: (T, T) -> bool, e: seq<T>, x: T, y: T)
    requires StrictWeak(lt, e) && x in e && y in e && lt(x, y)
    ensures Le(lt, x, y)
  {
  }

  lemma LeTransitive<T>(lt: (T, T) -> bool, e: seq<T>, x: T, y: T, z: T)
    requires StrictWeak(lt, e) && x in e && y in e && z in e && Le(lt, x, y) && Le(lt, y, z)
    ensures Le(lt, x, z)
  {
    assert lt(z, x) && lt(x, y) ==> lt(z, y);
    assert lt(z, x) && lt(y, z) ==> lt(y, x);
    assert !lt(x, y) && !lt(y, z) ==> Le(lt, z, x);
  }

  /** The same elements from l to u, and nothing else has changed. */
  ghost predicate Perm<T>(s: seq<T>, t: seq<T>, l: int, u: int) {
    && 0 <= l <= u + 1 <= |s| && |s| == |t| && s[..l] == t[..l] && s[u + 1..] == t[u + 1..]
    && multiset(s[l..u + 1]) == multiset(t[l..u + 1])
  }

  lemma PermTransitive<T>(r: seq<T>, s: seq<T>, t: seq<T>, l: int, u: int)
    requires Perm(r, s, l, u) && Perm(s, t, l, u)
    ensures Perm(r, t, l, u)
  {
  }

  lemma PermWider<T>(s: seq<T>, t: seq<T>, l: int, u: int, l1: int, u1: int)
    requires Perm(s, t, l, u) && 0 <= l1 <= l && u <= u1 < |s|
    ensures Perm(s, t, l1, u1)
  {
    assert s[..l1] == s[..l][..l1] && t[..l1] == t[..l][..l1];
    assert s[u1 + 1..] == s[u + 1..][u1 - u..] && t[u1 + 1..] == t[u + 1..][u1 - u..];
    Middle(s, l, u, l1, u1);
    Middle(t, l, u, l1, u1);
  }

  lemma Middle<T>(s: seq<T>, l: int, u: int, l1: int, u1: int)
    requires 0 <= l1 <= l <= u + 1 <= u1 + 1 <= |s|
    ensures s[l1..u1 + 1] == s[..l][l1..] + s[l..u + 1] + s[u + 1..][..u1 - u]
  {
  }

  lemma PermSwap<T>(s: seq<T>, t: seq<T>, i: int, j: int, l: int, u: int)
    requires 0 <= l <= i <= u < |s| && l <= j <= u && t == s[i := s[j]][j := s[i]]
    ensures Perm(s, t, l, u)
  {
    var p, q := s[l..u + 1], t[l..u + 1];
    assert q == p[i - l := p[j - l]][j - l := p[i - l]];
  }

  /** An element of the range comes from the range. */
  lemma PermElement<T>(s: seq<T>, t: seq<T>, l: int, u: int, k: int) returns (m: int)
    requires Perm(s, t, l, u) && l <= k <= u
    ensures l <= m <= u && s[m] == t[k]
  {
    assert t[l..u + 1][k - l] in multiset(s[l..u + 1]);
    var n :| 0 <= n < u + 1 - l && s[l..u + 1][n] == t[k];
    m := n + l;
  }

  lemma PermOutside<T>(s: seq<T>, t: seq<T>, l: int, u: int, k: int)
    requires Perm(s, t, l, u) && 0 <= k < |s| && !(l <= k <= u)
    ensures s[k] == t[k]
  {
    if k < l {
      assert s[..l][k] == t[..l][k];
    } else {
      assert s[u + 1..][k - u - 1] == t[u + 1..][k - u - 1];
    }
  }

  /** The pairs from l to u that are not both from l1 to u1 are in order. */
  ghost predicate OrderedBut<T>(lt: (T, T) -> bool, s: seq<T>, l: int, u: int, l1: int, u1: int) {
    0 <= l && u < |s| && forall p, q :: l <= p < q <= u && !(l1 <= p && q <= u1) ==> Le(lt, s[p], s[q])
  }

  ghost predicate Sorted<T>(lt: (T, T) -> bool, s: seq<T>, l: int, u: int) {
    0 <= l && u < |s| && forall p, q :: l <= p < q <= u ==> Le(lt, s[p], s[q])
  }

  /** Everything before i is no greater, and everything after i is no less than the pivot at i. */
  ghost predicate Split<T>(lt: (T, T) -> bool, s: seq<T>, l: int, i: int, u: int) {
    && 0 <= l <= i <= u < |s| && (forall k :: l <= k < i ==> Le(lt, s[k], s[i])) && forall k :: i < k <= u ==>
         Le(lt, s[i], s[k])
  }

  ghost predicate Elements<T>(s: seq<T>, l: int, u: int, e: seq<T>) {
    0 <= l && u < |s| && forall k :: l <= k <= u ==> s[k] in e
  }

  ghost predicate Orderable<T>(lt: (T, T) -> bool, s: seq<T>, l: int, u: int, e: seq<T>) {
    StrictWeak(lt, e) && 0 <= l && u < |s| && Elements(s, l, u, e)
  }

  lemma PermElements<T>(s: seq<T>, t: seq<T>, l: int, u: int, l1: int, u1: int, e: seq<T>)
    requires Perm(s, t, l, u) && Elements(s, l1, u1, e) && l1 <= l && u <= u1
    ensures Elements(t, l1, u1, e)
  {
    forall k | l1 <= k <= u1 ensures t[k] in e {
      if l <= k <= u {
        var m := PermElement(s, t, l, u, k);
      } else {
        PermOutside(s, t, l, u, k);
      }
    }
  }

  /** Rearranging part of the open range keeps the order of the rest. */
  lemma PermOrderedBut<T>(lt: (T, T) -> bool, s: seq<T>, t: seq<T>, l: int, u: int, l1: int, u1: int, x: int, y: int)
    requires OrderedBut(lt, s, l, u, l1, u1) && Perm(s, t, x, y) && l <= l1 <= x && y <= u1 <= u
    ensures OrderedBut(lt, t, l, u, l1, u1)
  {
    forall p, q | l <= p < q <= u && !(l1 <= p && q <= u1) ensures Le(lt, t[p], t[q]) {
      var p1, q1 := p, q;
      if x <= p <= y {
        p1 := PermElement(s, t, x, y, p);
      } else {
        PermOutside(s, t, x, y, p);
      }
      if x <= q <= y {
        q1 := PermElement(s, t, x, y, q);
      } else {
        PermOutside(s, t, x, y, q);
      }
      assert p1 < q1 && Le(lt, s[p1], s[q1]);
    }
  }

  function Pow2(n: nat): nat {
    if n == 0 then 1 else 2 * Pow2(n - 1)
  }

  function Swapped<T>(s: seq<T>, i: int, j: int): (t: seq<T>)
    requires 0 <= i < |s| && 0 <= j < |s|
    ensures |t| == |s|
  {
    s[i := s[j]][j := s[i]]
  }

  function EndsInOrder<T>(lt: (T, T) -> bool, s: seq<T>, l: int, u: int): (t: seq<T>)
    requires 0 <= l < u < |s|
    ensures |t| == |s|
  {
    if lt(s[u], s[l]) then Swapped(s, l, u) else s
  }

  function MiddleInOrder<T>(lt: (T, T) -> bool, s: seq<T>, l: int, i: int, u: int): (t: seq<T>)
    requires 0 <= l < i < u < |s|
    ensures |t| == |s|
  {
    if lt(s[i], s[l]) then Swapped(s, i, l) else if lt(s[u], s[i]) then Swapped(s, i, u) else s
  }

  lemma EndsOk<T>(lt: (T, T) -> bool, s: seq<T>, l: int, u: int, e: seq<T>)
    requires 0 <= l < u < |s|
    ensures Perm(s, EndsInOrder(lt, s, l, u), l, u)
    ensures StrictWeak(lt, e) && s[l] in e && s[u] in e ==>
      Le(lt, EndsInOrder(lt, s, l, u)[l], EndsInOrder(lt, s, l, u)[u])
  {
    PermSwap(s, Swapped(s, l, u), l, u, l, u);
    hide StrictWeak;
    if StrictWeak(lt, e) && s[l] in e && s[u] in e && lt(s[u], s[l]) {
      LtLe(lt, e, s[u], s[l]);
    }
  }

  lemma MiddleOk<T>(lt: (T, T) -> bool, s: seq<T>, l: int, i: int, u: int, e: seq<T>)
    requires 0 <= l < i < u < |s|
    ensures Perm(s, MiddleInOrder(lt, s, l, i, u), l, u)
    ensures StrictWeak(lt, e) && s[l] in e && s[i] in e && s[u] in e && Le(lt, s[l], s[u]) ==>
      var t := MiddleInOrder(lt, s, l, i, u); Le(lt, t[l], t[i]) && Le(lt, t[i], t[u]) && Le(lt, t[l], t[u])
  {
    PermSwap(s, Swapped(s, i, l), i, l, l, u);
    PermSwap(s, Swapped(s, i, u), i, u, l, u);
    PermSwap(s, s, l, l, l, u);
    hide StrictWeak, Perm;
    if StrictWeak(lt, e) && s[l] in e && s[i] in e && s[u] in e && Le(lt, s[l], s[u]) {
      if lt(s[i], s[l]) {
        LtLe(lt, e, s[i], s[l]);
        LeTransitive(lt, e, s[i], s[l], s[u]);
      } else if lt(s[u], s[i]) {
        LtLe(lt, e, s[u], s[i]);
        LeTransitive(lt, e, s[l], s[u], s[i]);
      }
    }
  }

  method Swap<T>(a: array<T>, i: int, j: int)
    requires 0 <= i < a.Length && 0 <= j < a.Length
    modifies a
    ensures a[..] == Swapped(old(a[..]), i, j)
  {
    a[i], a[j] := a[j], a[i];
  }

  ghost predicate InOrder<T>(lt: (T, T) -> bool, s: seq<T>, l: int, i: int, u: int) {
    0 <= l <= i <= u < |s| && Le(lt, s[l], s[i]) && Le(lt, s[i], s[u])
  }

  /** Puts the first, the middle and the last element in order; done: that is all there is. */
  method MedianOfThree<T>(a: array<T>, lt: (T, T) -> bool, l: int, u: int, ghost e: seq<T>) returns (done: bool, i: int)
    requires 0 <= l < u < a.Length
    modifies a
    ensures Perm(old(a[..]), a[..], l, u) && (done <==> u - l <= 2) && (!done ==> i == (l + u) / 2)
    ensures old(Orderable(lt, a[..], l, u, e)) ==> if done then Sorted(lt, a[..], l, u) else InOrder(lt, a[..], l, i, u)
  {
    hide StrictWeak, Perm, Le;
    ghost var s := a[..];
    i := l;
    EndsOk(lt, s, l, u, e);
    if lt(a[u], a[l]) {
      Swap(a, l, u);
    }
    assert a[..] == EndsInOrder(lt, s, l, u);
    hide EndsInOrder;
    if u - l == 1 {
      return true, i;
    }
    i := (l + u) / 2;
    ghost var t := a[..];
    MiddleOk(lt, t, l, i, u, e);
    if lt(a[i], a[l]) {
      Swap(a, i, l);
    } else if lt(a[u], a[i]) {
      Swap(a, i, u);
    }
    assert a[..] == MiddleInOrder(lt, t, l, i, u);
    hide MiddleInOrder;
    PermTransitive(s, t, a[..], l, u);
    if StrictWeak(lt, e) && Elements(s, l, u, e) {
      PermElements(s, t, l, u, l, u, e);
    }
    done := u - l == 2;
  }

  /** From l up to but without i, nothing is greater than the pivot. */
  ghost predicate Below<T>(lt: (T, T) -> bool, s: seq<T>, l: int, i: int, p: T) {
    0 <= l && i <= |s| && forall k :: l <= k < i ==> Le(lt, s[k], p)
  }

  /** From j to u, nothing is less than the pivot. */
  ghost predicate Above<T>(lt: (T, T) -> bool, s: seq<T>, j: int, u: int, p: T) {
    0 <= j && u < |s| && forall k :: j <= k <= u ==> Le(lt, p, s[k])
  }

  lemma SwapKeeps<T>(lt: (T, T) -> bool, s: seq<T>, l: int, i: int, j: int, u: int, p: T)
    requires 0 <= l <= i <= j <= u < |s| && Below(lt, s, l, i, p) && Above(lt, s, j + 1, u, p) && Le(lt, p, s[i])
             && Le(lt, s[j], p)
    ensures Below(lt, Swapped(s, i, j), l, i + 1, p) && Above(lt, Swapped(s, i, j), j, u, p)
  {
  }

  lemma PivotSplits<T>(lt: (T, T) -> bool, s: seq<T>, l: int, i: int, j: int, u: int, p: T)
    requires 0 <= l <= i < u < |s| && 0 <= j < i && Below(lt, s, l, i, p) && Above(lt, s, j + 1, u, p) && s[u - 1] == p
    ensures Split(lt, Swapped(s, u - 1, i), l, i, u)
  {
  }

  /** What the partition of a range with a strict weak order starts from: a pivot between its ends. */
  ghost predicate Partitionable<T>(lt: (T, T) -> bool, s: seq<T>, l: int, u: int, e: seq<T>) {
    && 0 <= l && l + 3 <= u < |s| && StrictWeak(lt, e) && Elements(s, l, u, e)
    && Le(lt, s[l], s[u - 1]) && Le(lt, s[u - 1], s[u])
  }

  /** What holds at the head of the partition loop. */
  ghost predicate Scanned<T>(lt: (T, T) -> bool, s: seq<T>, l: int, i: int, j: int, u: int, p: T, e: seq<T>) {
    StrictWeak(lt, e) && Elements(s, l, u, e) && Below(lt, s, l, i + 1, p) && Above(lt, s, j, u, p)
  }

  /** What holds when both scans have stopped. */
  ghost predicate Met<T>(lt: (T, T) -> bool, s: seq<T>, l: int, i: int, j: int, u: int, p: T, e: seq<T>) {
    && StrictWeak(lt, e) && Elements(s, l, u, e) && Below(lt, s, l, i, p) && Above(lt, s, j + 1, u, p)
    && 0 <= i < u < |s| && 0 <= j <= u && Le(lt, p, s[i]) && Le(lt, s[j], p)
  }

  lemma SwapStep<T>(lt: (T, T) -> bool, s: seq<T>, t: seq<T>, l: int, i: int, j: int, u: int, p: T, e: seq<T>)
    requires Perm(s, t, l, u) && l <= i <= j < u - 1 && t[u - 1] == p
    ensures Perm(s, Swapped(t, i, j), l, u) && Swapped(t, i, j)[u - 1] == p
    ensures Met(lt, t, l, i, j, u, p, e) ==> Scanned(lt, Swapped(t, i, j), l, i, j, u, p, e)
  {
    PermSwap(t, Swapped(t, i, j), i, j, l, u);
    hide StrictWeak, Perm;
    PermTransitive(s, t, Swapped(t, i, j), l, u);
    if Elements(t, l, u, e) {
      PermElements(t, Swapped(t, i, j), l, u, l, u, e);
    }
    hide Elements, Le;
    if Below(lt, t, l, i, p) && Above(lt, t, j + 1, u, p) && Le(lt, p, t[i]) && Le(lt, t[j], p) {
      SwapKeeps(lt, t, l, i, j, u, p);
    }
  }

  /** Moves i up to the next element that does not belong below the pivot. */
  method ScanUp<T>(a: array<T>, lt: (T, T) -> bool, l: int, u: int, p: T, i0: int, ghost e: seq<T>)
      returns (ok: bool, i: int)
    requires 0 <= l <= i0 && i0 + 1 < u < a.Length && a[u - 1] == p
    ensures i0 < i <= u
    ensures ok ==> !lt(a[i], p)
    ensures StrictWeak(lt, e) && Elements(a[..], l, u, e) && Below(lt, a[..], l, i0 + 1, p) ==>
      ok && i < u && Below(lt, a[..], l, i, p)
  {
    ghost var w := StrictWeak(lt, e) && Elements(a[..], l, u, e) && Below(lt, a[..], l, i0 + 1, p);
    assert w ==> !lt(p, p) by { if w { assert a[..][u - 1] == p && p in e; } }
    hide StrictWeak;
    i := i0 + 1;
    while lt(a[i], p)
      invariant i0 < i <= u && (w ==> i < u && Below(lt, a[..], l, i, p))
      decreases u - i
    {
      if i >= u {
        return false, i;
      }
      if w {
        assert a[i] == a[..][i];
        LtLe(lt, e, a[i], p);
      }
      i := i + 1;
    }
    ok := true;
  }

  /** Moves j down to the next element that does not belong above the pivot. */
  method ScanDown<T>(a: array<T>, lt: (T, T) -> bool, l: int, u: int, p: T, j0: int, ghost e: seq<T>)
      returns (ok: bool, j: int)
    requires 0 <= l < j0 < u < a.Length && a[u - 1] == p
    ensures l <= j < j0
    ensures ok ==> !lt(p, a[j])
    ensures StrictWeak(lt, e) && Elements(a[..], l, u, e) && Le(lt, a[l], p) && Above(lt, a[..], j0, u, p) ==>
      ok && Above(lt, a[..], j + 1, u, p)
  {
    ghost var w := StrictWeak(lt, e) && Elements(a[..], l, u, e) && Le(lt, a[l], p) && Above(lt, a[..], j0, u, p);
    assert w ==> p in e by { if w { assert a[..][u - 1] == p; } }
    hide StrictWeak;
    j := j0 - 1;
    while lt(p, a[j])
      invariant l <= j < j0 && (w ==> Above(lt, a[..], j + 1, u, p))
      decreases j
    {
      if j <= l {
        return false, j;
      }
      if w {
        assert a[j] == a[..][j];
        LtLe(lt, e, p, a[j]);
      }
      j := j - 1;
    }
    ok := true;
  }

  /** One round of the partition loop up to the swap. */
  method Scan<T>(a: array<T>, lt: (T, T) -> bool, l: int, u: int, p: T, i0: int, j0: int, ghost e: seq<T>)
    returns (ok: bool, i: int, j: int)
    requires 0 <= l <= i0 && i0 + 1 < u < a.Length && a[u - 1] == p && l < j0 < u
    ensures i0 < i <= u && l <= j <= j0 && (ok ==> j < j0)
    ensures Scanned(lt, a[..], l, i0, j0, u, p, e) ==> ok && Met(lt, a[..], l, i, j, u, p, e)
  {
    assert Scanned(lt, a[..], l, i0, j0, u, p, e) ==> Le(lt, a[..][l], p);
    hide StrictWeak, Elements, Below, Above;
    j := j0;
    ok, i := ScanUp(a, lt, l, u, p, i0, e);
    if ok {
      ok, j := ScanDown(a, lt, l, u, p, j0, e);
    }
  }

  /** The partition of a range whose pivot is next to its end. Whatever the comparison does, no index
      leaves the range; with a strict weak order there is no error. */
  method Partition<T>(a: array<T>, lt: (T, T) -> bool, l: int, u: int, ghost e: seq<T>) returns (ok: bool, i: int)
    requires 0 <= l && l + 3 <= u < a.Length
    modifies a
    ensures Perm(old(a[..]), a[..], l, u) && l < i <= u
    ensures old(Partitionable(lt, a[..], l, u, e)) ==> ok && Split(lt, a[..], l, i, u)
  {
    var p := a[u - 1];
    var j := u - 1;
    i := l;
    ghost var w := Partitionable(lt, a[..], l, u, e);
    ghost var s := a[..];
    hide *;
    Start(lt, s, l, u, e);
    while true
      invariant l <= i <= j < u && i < u - 1 && l < j && a[..][u - 1] == p && Perm(s, a[..], l, u)
      invariant w ==> Scanned(lt, a[..], l, i, j, u, p, e)
      decreases j - i
    {
      ok, i, j := Scan(a, lt, l, u, p, i, j, e);
      if !ok {
        return;
      }
      if j < i {
        break;
      }
      SwapStep(lt, s, a[..], l, i, j, u, p, e);
      Swap(a, i, j);
    }
    Finish(lt, s, a[..], l, i, j, u, p, e);
    Swap(a, u - 1, i);
  }

  lemma Start<T>(lt: (T, T) -> bool, s: seq<T>, l: int, u: int, e: seq<T>)
    requires 0 <= l && l + 3 <= u < |s|
    ensures Perm(s, s, l, u) && (Partitionable(lt, s, l, u, e) ==> Scanned(lt, s, l, l, u - 1, u, s[u - 1], e))
  {
    PermSwap(s, s, l, l, l, u);
  }

  lemma Finish<T>(lt: (T, T) -> bool, s: seq<T>, t: seq<T>, l: int, i: int, j: int, u: int, p: T, e: seq<T>)
    requires Perm(s, t, l, u) && l < i <= u && l <= j < i && t[u - 1] == p
    ensures Perm(s, Swapped(t, u - 1, i), l, u)
    ensures Met(lt, t, l, i, j, u, p, e) ==> Split(lt, Swapped(t, u - 1, i), l, i, u)
  {
    PermSwap(t, Swapped(t, u - 1, i), u - 1, i, l, u);
    hide Perm, Split;
    PermTransitive(s, t, Swapped(t, u - 1, i), l, u);
    if Met(lt, t, l, i, j, u, p, e) {
      PivotSplits(lt, t, l, i, j, u, p);
    }
  }

  /** Sorting one side keeps the split. */
  lemma SplitStays<T>(lt: (T, T) -> bool, s: seq<T>, t: seq<T>, l: int, i: int, u: int, x: int, y: int)
    requires Split(lt, s, l, i, u) && Perm(s, t, x, y) && ((x == l && y == i - 1) || (x == i + 1 && y == u))
    ensures Split(lt, t, l, i, u)
  {
    PermOutside(s, t, x, y, i);
    forall k | l <= k <= u && k != i ensures if k < i then Le(lt, t[k], t[i]) else Le(lt, t[i], t[k]) {
      if x <= k <= y {
        var m := PermElement(s, t, x, y, k);
      } else {
        PermOutside(s, t, x, y, k);
      }
    }
  }

  /** A split range with one sorted side is in order up to its other side. */
  lemma SideSorted<T>(lt: (T, T) -> bool, t: seq<T>, l0: int, u0: int, l: int, i: int, u: int, x: int, y: int,
                      e: seq<T>)
    requires StrictWeak(lt, e) && Elements(t, l0, u0, e) && l0 <= l && u <= u0
    requires OrderedBut(lt, t, l0, u0, l, u) && Split(lt, t, l, i, u)
    requires (x == l && y == i - 1) || (x == i + 1 && y == u)
    requires x <= y ==> Sorted(lt, t, x, y)
    ensures OrderedBut(lt, t, l0, u0, if x == l then i + 1 else l, if x == l then u else i - 1)
  {
    hide StrictWeak;
    forall p, q | l <= p < i < q <= u ensures Le(lt, t[p], t[q]) {
      LeTransitive(lt, e, t[p], t[i], t[q]);
    }
  }

  /** What the sort keeps: the elements, and that all but the range from l to u is in order. */
  ghost predicate Open<T>(lt: (T, T) -> bool, s: seq<T>, l0: int, u0: int, l: int, u: int, e: seq<T>) {
    Orderable(lt, s, l0, u0, e) && OrderedBut(lt, s, l0, u0, l, u)
  }

  lemma OpenPerm<T>(lt: (T, T) -> bool, s: seq<T>, t: seq<T>, l0: int, u0: int, l: int, u: int, x: int, y: int,
                    e: seq<T>)
    requires Open(lt, s, l0, u0, l, u, e) && Perm(s, t, x, y) && l0 <= l <= x && y <= u <= u0
    ensures Open(lt, t, l0, u0, l, u, e) && Orderable(lt, s, l, u, e)
  {
    PermElements(s, t, x, y, l0, u0, e);
    PermOrderedBut(lt, s, t, l0, u0, l, u, x, y);
  }

  lemma OpenSide<T>(lt: (T, T) -> bool, s: seq<T>, t: seq<T>, l0: int, u0: int, l: int, i: int, u: int, x: int, y: int,
                    e: seq<T>)
    requires Open(lt, s, l0, u0, l, u, e) && Split(lt, s, l, i, u) && Perm(s, t, x, y) && l0 <= l && u <= u0
    requires (x == l && y == i - 1) || (x == i + 1 && y == u)
    requires Sorted(lt, t, x, y) || x > y
    ensures Open(lt, t, l0, u0, if x == l then i + 1 else l, if x == l then u else i - 1, e)
  {
    hide StrictWeak, Perm, Split, OrderedBut, Elements, Sorted;
    assert l <= i <= u by { SplitBounds(lt, s, l, i, u); }
    OpenPerm(lt, s, t, l0, u0, l, u, x, y, e);
    SplitStays(lt, s, t, l, i, u, x, y);
    SideSorted(lt, t, l0, u0, l, i, u, x, y, e);
  }

  lemma SplitBounds<T>(lt: (T, T) -> bool, s: seq<T>, l: int, i: int, u: int)
    requires Split(lt, s, l, i, u)
    ensures 0 <= l <= i <= u < |s|
  {
  }

  lemma Closed<T>(lt: (T, T) -> bool, s: seq<T>, l0: int, u0: int, l: int, u: int, e: seq<T>)
    requires Open(lt, s, l0, u0, l, u, e) && (l >= u || Sorted(lt, s, l, u))
    ensures Sorted(lt, s, l0, u0)
  {
  }

  lemma PivotReady<T>(lt: (T, T) -> bool, s: seq<T>, t: seq<T>, l: int, i: int, u: int, e: seq<T>)
    requires 0 <= l < i < u - 1 && u < |t| && Perm(s, t, l, u)
    ensures Perm(s, Swapped(t, i, u - 1), l, u)
    ensures Orderable(lt, s, l, u, e) && InOrder(lt, t, l, i, u) ==> Partitionable(lt, Swapped(t, i, u - 1), l, u, e)
  {
    PermSwap(t, Swapped(t, i, u - 1), i, u - 1, l, u);
    hide Perm, StrictWeak;
    PermTransitive(s, t, Swapped(t, i, u - 1), l, u);
    if Orderable(lt, s, l, u, e) {
      PermElements(s, Swapped(t, i, u - 1), l, u, l, u, e);
    }
  }

  /** Splits a range at a pivot, or puts it in order when it is short. */
  method SplitRange<T>(a: array<T>, lt: (T, T) -> bool, l: int, u: int, ghost e: seq<T>)
      returns (done: bool, ok: bool, i: int)
    requires 0 <= l < u < a.Length
    modifies a
    ensures Perm(old(a[..]), a[..], l, u) && (!done ==> l < i <= u)
    ensures old(Orderable(lt, a[..], l, u, e)) ==> if done then Sorted(lt, a[..], l, u)
              else ok && Split(lt, a[..], l, i, u)
    ensures done ==> ok
  {
    hide *;
    ghost var s := a[..];
    done, i := MedianOfThree(a, lt, l, u, e);
    ok := true;
    if done {
      return;
    }
    PivotReady(lt, s, a[..], l, i, u, e);
    Swap(a, i, u - 1);
    ghost var t := a[..];
    ok, i := Partition(a, lt, l, u, e);
    PermTransitive(s, t, a[..], l, u);
  }

  lemma DepthFits(d: nat, c: int, n: int)
    requires Pow2(d) <= c + 1 && 2 * c <= n
    ensures Pow2(d + 1) <= n + 2
  {
  }

  /** Sorts the elements from l0 to u0. ok: no "invalid order function" error. Whatever the comparison
      does, the elements are only rearranged and the recursion is at most logarithmic; with a strict
      weak order there is no error and the result is sorted. */
  method AuxSort<T>(a: array<T>, lt: (T, T) -> bool, l0: int, u0: int, ghost e: seq<T>)
      returns (ok: bool, ghost depth: nat)
    requires 0 <= l0 <= u0 + 1 <= a.Length
    modifies a
    ensures Perm(old(a[..]), a[..], l0, u0)
    ensures old(Orderable(lt, a[..], l0, u0, e)) ==> ok && Sorted(lt, a[..], l0, u0)
    ensures Pow2(depth) <= u0 - l0 + 2
    decreases u0 - l0 + 1
  {
    var l, u := l0, u0;
    depth := 0;
    ghost var s0 := a[..];
    ghost var w := Orderable(lt, s0, l0, u0, e);
    assert w ==> Open(lt, s0, l0, u0, l0, u0, e);
    assert Perm(s0, s0, l0, u0);
    hide Orderable, Open, Perm, Split, Sorted, Pow2;
    ok := true;
    while l < u
      invariant l0 <= l <= u + 1 && u <= u0 && Perm(s0, a[..], l0, u0) && ok
      invariant w ==> Open(lt, a[..], l0, u0, l, u, e)
      invariant Pow2(depth) <= u0 - l0 + 2
      decreases u - l + 1
    {
      ghost var s := a[..];
      if w {
        OpenIsOrderable(lt, s, l0, u0, l, u, e);
      }
      var done, i;
      done, ok, i := SplitRange(a, lt, l, u, e);
      PermWider(s, a[..], l, u, l0, u0);
      PermTransitive(s0, s, a[..], l0, u0);
      if w {
        OpenPerm(lt, s, a[..], l0, u0, l, u, l, u, e);
      }
      if done {
        break;
      }
      if !ok {
        return;
      }
      ghost var t, pivot, l1, u1 := a[..], i, l, u;
      var j;
      if i - l < u - i {
        j := l;
        i := i - 1;
        l := i + 2;
      } else {
        j := i + 1;
        i := u;
        u := j - 2;
      }
      if w {
        OpenIsOrderable(lt, t, l0, u0, j, i, e);
      }
      ghost var d;
      ok, d := AuxSort(a, lt, j, i, e);
      DepthFits(d, i - j + 1, u0 - l0);
      depth := if d + 1 > depth then d + 1 else depth;
      PermWider(t, a[..], j, i, l0, u0);
      PermTransitive(s0, t, a[..], l0, u0);
      if !ok {
        return;
      }
      if w {
        OpenSide(lt, t, a[..], l0, u0, l1, pivot, u1, j, i, e);
      }
    }
    if w {
      Closed(lt, a[..], l0, u0, l, u, e);
    }
  }

  lemma OpenIsOrderable<T>(lt: (T, T) -> bool, s: seq<T>, l0: int, u0: int, l: int, u: int, e: seq<T>)
    requires Orderable(lt, s, l0, u0, e) && l0 <= l && u <= u0
    ensures Orderable(lt, s, l, u, e)
  {
  }

  /** table.sort. */
  method TableSort<T>(a: array<T>, lt: (T, T) -> bool) returns (ok: bool, ghost depth: nat)
    modifies a
    ensures multiset(a[..]) == multiset(old(a[..])) && Pow2(depth) <= a.Length + 1
    ensures StrictWeak(lt, old(a[..])) ==> ok && forall p, q :: 0 <= p < q < a.Length ==> !lt(a[q], a[p])
  {
    ghost var s := a[..];
    ok, depth := AuxSort(a, lt, 0, a.Length - 1, s);
    assert s[0..a.Length - 1 + 1] == s && a[..][0..a.Length - 1 + 1] == a[..];
    assert StrictWeak(lt, s) ==> Orderable(lt, s, 0, a.Length - 1, s);
  }
}
