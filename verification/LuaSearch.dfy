/** The search finds the best match of a Lua pattern, and it finds none only when there is none. */
module LuaSearch {
  import opened LuaChars
  import opened LuaPattern

  /** A result that is not an error is the right one. */
  ghost predicate Right(r: Result, p: string, t: string, pi: nat, s: nat, caps: seq<Capture>)
    requires pi <= |p| && s <= |t|
  {
    match r
    case Found(e, f) => In(p, t, pi, s, caps, e, f) && Best(p, t, pi, s, caps, e, f)
    case Failed => !Possible(p, t, pi, s, caps)
    case Error => true
  }

  lemma RepeatsMore(p: string, t: string, pi: nat, end: nat, s: nat, n: nat)
    requires end > 0
    ensures Repeats(p, t, pi, end, s, n + 1) <==> Repeats(p, t, pi, end, s, n) && One(p, t, pi, end, s + n)
    ensures Repeats(p, t, pi, end, s, 0) <==> s <= |t|
  {
    if Repeats(p, t, pi, end, s, n) && One(p, t, pi, end, s + n) {
      forall j: nat | s <= j < s + (n + 1) ensures Single(t[j], p, pi, end) {
      }
    }
    if Repeats(p, t, pi, end, s, n + 1) {
      assert Single(t[s + n], p, pi, end);
    }
  }

  lemma RepeatsOne(p: string, t: string, pi: nat, end: nat, s: nat)
    requires end > 0 && s <= |t|
    ensures Repeats(p, t, pi, end, s, 1) <==> One(p, t, pi, end, s)
  {
    RepeatsMore(p, t, pi, end, s, 0);
  }

  lemma RepeatsFirst(p: string, t: string, pi: nat, end: nat, s: nat, n: nat)
    requires end > 0 && s <= |t|
    ensures Repeats(p, t, pi, end, s, n) ==> n == 0 || One(p, t, pi, end, s)
  {
    assert Repeats(p, t, pi, end, s, n) && n > 0 ==> Single(t[s], p, pi, end);
  }

  /** The longest repetition is the longest. */
  lemma {:induction false} LongestRepeats(p: string, t: string, pi: nat, end: nat, s: nat)
    requires end > 0 && s <= |t|
    ensures Repeats(p, t, pi, end, s, Longest(p, t, pi, end, s))
    ensures forall n: nat :: Repeats(p, t, pi, end, s, n) ==> n <= Longest(p, t, pi, end, s)
    decreases |t| - s
  {
    RepeatsOne(p, t, pi, end, s);
    if One(p, t, pi, end, s) {
      LongestRepeats(p, t, pi, end, s + 1);
      var k := Longest(p, t, pi, end, s + 1);
      assert Repeats(p, t, pi, end, s, 1 + k) by {
        forall j: nat | s <= j < s + (1 + k) ensures Single(t[j], p, pi, end) {
          assert s + 1 <= j ==> Single(t[j], p, pi, end);
        }
      }
      forall n: nat | Repeats(p, t, pi, end, s, n) ensures n <= 1 + k {
        if n > 0 {
          assert Repeats(p, t, pi, end, s + 1, n - 1);
        }
      }
    } else {
      forall n: nat ensures Repeats(p, t, pi, end, s, n) ==> n == 0 {
        RepeatsFirst(p, t, pi, end, s, n);
      }
    }
  }

  lemma RepeatsFewer(p: string, t: string, pi: nat, end: nat, s: nat, n: nat, m: nat)
    requires end > 0 && Repeats(p, t, pi, end, s, n) && m <= n
    ensures Repeats(p, t, pi, end, s, m)
  {
  }

  lemma RepeatsAt(p: string, t: string, pi: nat, end: nat, s: nat, n: nat, j: nat)
    requires end > 0 && Repeats(p, t, pi, end, s, n)
    ensures j < n ==> One(p, t, pi, end, s + j)
  {
  }

  ghost predicate NoneAbove(p: string, t: string, pi: nat, end: nat, s: nat, caps: seq<Capture>, n: nat)
    requires 0 < end < |p|
  {
    forall m: nat :: m > n && Repeats(p, t, pi, end, s, m) ==> !Possible(p, t, end + 1, s + m, caps)
  }

  ghost predicate NoneBelow(p: string, t: string, pi: nat, end: nat, s: nat, caps: seq<Capture>, n: nat)
    requires 0 < end < |p|
  {
    forall m: nat :: m < n && Repeats(p, t, pi, end, s, m) ==> !Possible(p, t, end + 1, s + m, caps)
  }

  /** max_expand, where the item has to match low times: it ends with the largest number that is
      possible, or no number from low on is. */
  lemma {:induction false} MostRight(d: nat, p: string, t: string, pi: nat, end: nat, s: nat, low: nat, n: nat,
                                     caps: seq<Capture>)
    returns (k: nat)
    requires pi < end < |p| && s + low + n <= |t| && Repeats(p, t, pi, end, s, low + n)
    requires NoneAbove(p, t, pi, end, s, caps, low + n)
    ensures var r := Most(d, p, t, end + 1, s + low, n, caps);
            && (r.Found? ==> k >= low && MostOften(p, t, pi, end, s, caps, k)
                             && Right(r, p, t, end + 1, s + k, caps))
            && (r.Failed? ==> forall m: nat :: m >= low && Repeats(p, t, pi, end, s, m) ==>
                !Possible(p, t, end + 1, s + m, caps))
    decreases |p| - (end + 1), 3, n
  {
    k := low + n;
    var r := Search(d, p, t, end + 1, s + low + n, caps);
    SearchRight(d, p, t, end + 1, s + low + n, caps);
    hide In, Best, GoOn, Search, Possible;
    if r.Failed? && n > 0 {
      RepeatsFewer(p, t, pi, end, s, low + n, low + n - 1);
      k := MostRight(d, p, t, pi, end, s, low, n - 1, caps);
    }
  }

  /** min_expand: it ends with the smallest number that is possible, or no number is. */
  lemma {:induction false} LeastRight(d: nat, p: string, t: string, pi: nat, end: nat, s: nat, n: nat,
                                      caps: seq<Capture>)
    returns (k: nat)
    requires pi < end < |p| && s + n <= |t| && Repeats(p, t, pi, end, s, n)
    requires NoneBelow(p, t, pi, end, s, caps, n)
    ensures var r := Least(d, p, t, pi, end, s + n, caps);
            && (r.Found? ==> LeastOften(p, t, pi, end, s, caps, k) && Right(r, p, t, end + 1, s + k, caps))
            && (r.Failed? ==> forall m: nat :: Repeats(p, t, pi, end, s, m) ==> !Possible(p, t, end + 1, s + m, caps))
    decreases |p| - (end + 1), 3, |t| - (s + n)
  {
    k := n;
    var r := Search(d, p, t, end + 1, s + n, caps);
    SearchRight(d, p, t, end + 1, s + n, caps);
    RepeatsMore(p, t, pi, end, s, n);
    hide In, Best, GoOn, Search, Possible;
    if r.Failed? {
      if One(p, t, pi, end, s + n) {
        k := LeastRight(d, p, t, pi, end, s, n + 1, caps);
      } else {
        forall m: nat | Repeats(p, t, pi, end, s, m) ensures m <= n {
          RepeatsAt(p, t, pi, end, s, m, n);
        }
      }
    }
  }

  lemma {:induction false} SearchRight(d: nat, p: string, t: string, pi: nat, s: nat, caps: seq<Capture>)
    requires pi <= |p| && s <= |t|
    ensures Right(Search(d, p, t, pi, s, caps), p, t, pi, s, caps)
    decreases |p| - pi, 2, 0
  {
    if d + 1 <= MAX_DEPTH {
      GoOnRight(d + 1, p, t, pi, s, caps);
    }
  }

  lemma Impossible(p: string, t: string, pi: nat, s: nat, caps: seq<Capture>)
    requires pi <= |p| && s <= |t| && forall e: nat, f: seq<Capture> :: !In(p, t, pi, s, caps, e, f)
    ensures !Possible(p, t, pi, s, caps)
  {
  }

  lemma NotIn(p: string, t: string, pi: nat, s: nat, caps: seq<Capture>, e: nat, f: seq<Capture>)
    requires pi <= |p| && s <= |t| && !Possible(p, t, pi, s, caps)
    ensures !In(p, t, pi, s, caps, e, f)
  {
  }

  /** The search is right: a match that it finds is the best one, and without one there is none. */
  lemma {:induction false} GoOnRight(d: nat, p: string, t: string, pi: nat, s: nat, caps: seq<Capture>)
    requires pi <= |p| && s <= |t|
    ensures Right(GoOn(d, p, t, pi, s, caps), p, t, pi, s, caps)
    decreases |p| - pi, 1, 0
  {
    match MoveAt(p, t, pi, s, caps)
    case Accept =>
    case Reject =>
    case Bad =>
    case Jump(pi1, s1) =>
      GoOnRight(d, p, t, pi1, s1, caps);
      forall e: nat, f: seq<Capture> ensures In(p, t, pi, s, caps, e, f) <==> In(p, t, pi1, s1, caps, e, f) {
      }
    case Group(pi1, caps1) =>
      SearchRight(d, p, t, pi1, s, caps1);
      forall e: nat, f: seq<Capture> ensures In(p, t, pi, s, caps, e, f) <==> In(p, t, pi1, s, caps1, e, f) {
      }
    case Item(end) =>
      ItemsRight(d, p, t, pi, end, s, caps);
  }

  lemma {:induction false} ItemsRight(d: nat, p: string, t: string, pi: nat, end: nat, s: nat, caps: seq<Capture>)
    requires pi < end <= |p| && s <= |t| && MoveAt(p, t, pi, s, caps) == Item(end)
    ensures Right(Items(d, p, t, pi, end, s, caps), p, t, pi, s, caps)
    decreases |p| - pi, 0, 0
  {
    match At(p, end)
    case '?' => OptionalRight(d, p, t, pi, end, s, caps);
    case '*' => StarRight(d, p, t, pi, end, s, caps);
    case '+' => PlusRight(d, p, t, pi, end, s, caps);
    case '-' => MinusRight(d, p, t, pi, end, s, caps);
    case _ => OnceRight(d, p, t, pi, end, s, caps);
  }

  lemma {:induction false} OptionalRight(d: nat, p: string, t: string, pi: nat, end: nat, s: nat, caps: seq<Capture>)
    requires pi < end <= |p| && s <= |t| && MoveAt(p, t, pi, s, caps) == Item(end) && At(p, end) == '?'
    ensures Right(Items(d, p, t, pi, end, s, caps), p, t, pi, s, caps)
    decreases |p| - (end + 1), 3, 0
  {
    hide MoveAt, GoOn, Search;
    RepeatsOne(p, t, pi, end, s);
    if One(p, t, pi, end, s) {
      SearchRight(d, p, t, end + 1, s + 1, caps);
    }
    GoOnRight(d, p, t, end + 1, s, caps);
    forall e: nat, f: seq<Capture>
      ensures In(p, t, pi, s, caps, e, f) <==>
              In(p, t, end + 1, s, caps, e, f) || (One(p, t, pi, end, s) && In(p, t, end + 1, s + 1, caps, e, f))
    {
    }
  }

  lemma {:induction false} StarRight(d: nat, p: string, t: string, pi: nat, end: nat, s: nat, caps: seq<Capture>)
    requires pi < end <= |p| && s <= |t| && MoveAt(p, t, pi, s, caps) == Item(end) && At(p, end) == '*'
    ensures Right(Items(d, p, t, pi, end, s, caps), p, t, pi, s, caps)
    decreases |p| - (end + 1), 4, 0
  {
    hide MoveAt, GoOn, Search;
    LongestRepeats(p, t, pi, end, s);
    var k := MostRight(d, p, t, pi, end, s, 0, Longest(p, t, pi, end, s), caps);
    hide Most, Longest, Possible;
    if Items(d, p, t, pi, end, s, caps).Failed? {
      forall e: nat, f: seq<Capture> ensures !In(p, t, pi, s, caps, e, f) {
        forall n: nat | Repeats(p, t, pi, end, s, n) ensures !In(p, t, end + 1, s + n, caps, e, f) {
          NotIn(p, t, end + 1, s + n, caps, e, f);
        }
      }
      Impossible(p, t, pi, s, caps);
    }
  }

  lemma {:induction false} PlusRight(d: nat, p: string, t: string, pi: nat, end: nat, s: nat, caps: seq<Capture>)
    requires pi < end <= |p| && s <= |t| && MoveAt(p, t, pi, s, caps) == Item(end) && At(p, end) == '+'
    ensures Right(Items(d, p, t, pi, end, s, caps), p, t, pi, s, caps)
    decreases |p| - (end + 1), 4, 0
  {
    hide MoveAt, GoOn, Search;
    LongestRepeats(p, t, pi, end, s);
    var k := 0;
    if One(p, t, pi, end, s) {
      k := MostRight(d, p, t, pi, end, s, 1, Longest(p, t, pi, end, s + 1), caps);
    } else {
      forall n: nat ensures Repeats(p, t, pi, end, s, n) ==> n == 0 {
        RepeatsFirst(p, t, pi, end, s, n);
      }
    }
    hide Most, Longest, Possible;
    if Items(d, p, t, pi, end, s, caps).Failed? {
      forall e: nat, f: seq<Capture> ensures !In(p, t, pi, s, caps, e, f) {
        forall n: nat | n > 0 && Repeats(p, t, pi, end, s, n) ensures !In(p, t, end + 1, s + n, caps, e, f) {
          NotIn(p, t, end + 1, s + n, caps, e, f);
        }
      }
      Impossible(p, t, pi, s, caps);
    }
  }

  lemma {:induction false} MinusRight(d: nat, p: string, t: string, pi: nat, end: nat, s: nat, caps: seq<Capture>)
    requires pi < end <= |p| && s <= |t| && MoveAt(p, t, pi, s, caps) == Item(end) && At(p, end) == '-'
    ensures Right(Items(d, p, t, pi, end, s, caps), p, t, pi, s, caps)
    decreases |p| - (end + 1), 4, 0
  {
    hide MoveAt, GoOn, Search;
    RepeatsMore(p, t, pi, end, s, 0);
    var k := LeastRight(d, p, t, pi, end, s, 0, caps);
    hide Least, Longest, Possible;
    if Items(d, p, t, pi, end, s, caps).Failed? {
      forall e: nat, f: seq<Capture> ensures !In(p, t, pi, s, caps, e, f) {
        forall n: nat | Repeats(p, t, pi, end, s, n) ensures !In(p, t, end + 1, s + n, caps, e, f) {
          NotIn(p, t, end + 1, s + n, caps, e, f);
        }
      }
      Impossible(p, t, pi, s, caps);
    }
  }

  lemma {:induction false} OnceRight(d: nat, p: string, t: string, pi: nat, end: nat, s: nat, caps: seq<Capture>)
    requires pi < end <= |p| && s <= |t| && MoveAt(p, t, pi, s, caps) == Item(end) && At(p, end) !in "?*+-"
    ensures Right(Items(d, p, t, pi, end, s, caps), p, t, pi, s, caps)
    decreases |p| - end, 3, 0
  {
    hide MoveAt, GoOn, Search;
    RepeatsOne(p, t, pi, end, s);
    if One(p, t, pi, end, s) {
      GoOnRight(d, p, t, end, s + 1, caps);
    }
    forall e: nat, f: seq<Capture>
      ensures In(p, t, pi, s, caps, e, f) <==> One(p, t, pi, end, s) && In(p, t, end, s + 1, caps, e, f)
    {
    }
  }
}
