/** What follows for Lua patterns from the order of the search: the match is unique, captures stay in
    the text, %b finds balanced text, and capture-free patterns are searched without errors. */
module LuaMeaning {
  import opened LuaChars
  import opened LuaPattern
  import opened LuaSearch

  lemma {:induction false} BestIn(p: string, t: string, pi: nat, s: nat, caps: seq<Capture>, e: nat, f: seq<Capture>)
    requires pi <= |p| && s <= |t| && Best(p, t, pi, s, caps, e, f)
    ensures In(p, t, pi, s, caps, e, f)
    decreases |p| - pi
  {
    hide MoveAt, Single;
    match MoveAt(p, t, pi, s, caps)
    case Accept =>
    case Jump(pi1, s1) => BestIn(p, t, pi1, s1, caps, e, f);
    case Group(pi1, caps1) => BestIn(p, t, pi1, s, caps1, e, f);
    case Item(end) =>
      match At(p, end)
      case '?' =>
        if Repeats(p, t, pi, end, s, 1) && Possible(p, t, end + 1, s + 1, caps) {
          BestIn(p, t, end + 1, s + 1, caps, e, f);
        } else {
          BestIn(p, t, end + 1, s, caps, e, f);
        }
      case '*' =>
        var n: nat :| MostOften(p, t, pi, end, s, caps, n) && Best(p, t, end + 1, s + n, caps, e, f);
        BestIn(p, t, end + 1, s + n, caps, e, f);
      case '+' =>
        var n: nat :| n > 0 && MostOften(p, t, pi, end, s, caps, n) && Best(p, t, end + 1, s + n, caps, e, f);
        BestIn(p, t, end + 1, s + n, caps, e, f);
      case '-' =>
        var n: nat :| LeastOften(p, t, pi, end, s, caps, n) && Best(p, t, end + 1, s + n, caps, e, f);
        BestIn(p, t, end + 1, s + n, caps, e, f);
      case _ => BestIn(p, t, end, s + 1, caps, e, f);
  }

  /** There is only one best match. */
  lemma {:induction false} BestUnique(p: string, t: string, pi: nat, s: nat, caps: seq<Capture>, e: nat,
                                      f: seq<Capture>,
                                      e2: nat, f2: seq<Capture>)
    requires pi <= |p| && s <= |t| && Best(p, t, pi, s, caps, e, f) && Best(p, t, pi, s, caps, e2, f2)
    ensures e == e2 && f == f2
    decreases |p| - pi
  {
    hide MoveAt, Single;
    match MoveAt(p, t, pi, s, caps)
    case Accept =>
    case Jump(pi1, s1) => BestUnique(p, t, pi1, s1, caps, e, f, e2, f2);
    case Group(pi1, caps1) => BestUnique(p, t, pi1, s, caps1, e, f, e2, f2);
    case Item(end) =>
      match At(p, end)
      case '?' =>
        if Repeats(p, t, pi, end, s, 1) && Possible(p, t, end + 1, s + 1, caps) {
          BestUnique(p, t, end + 1, s + 1, caps, e, f, e2, f2);
        } else {
          BestUnique(p, t, end + 1, s, caps, e, f, e2, f2);
        }
      case '*' =>
        var n: nat :| MostOften(p, t, pi, end, s, caps, n) && Best(p, t, end + 1, s + n, caps, e, f);
        var m: nat :| MostOften(p, t, pi, end, s, caps, m) && Best(p, t, end + 1, s + m, caps, e2, f2);
        BestIn(p, t, end + 1, s + n, caps, e, f);
        BestIn(p, t, end + 1, s + m, caps, e2, f2);
        BestUnique(p, t, end + 1, s + n, caps, e, f, e2, f2);
      case '+' =>
        var n: nat :| n > 0 && MostOften(p, t, pi, end, s, caps, n) && Best(p, t, end + 1, s + n, caps, e, f);
        var m: nat :| m > 0 && MostOften(p, t, pi, end, s, caps, m) && Best(p, t, end + 1, s + m, caps, e2, f2);
        BestIn(p, t, end + 1, s + n, caps, e, f);
        BestIn(p, t, end + 1, s + m, caps, e2, f2);
        BestUnique(p, t, end + 1, s + n, caps, e, f, e2, f2);
      case '-' =>
        var n: nat :| LeastOften(p, t, pi, end, s, caps, n) && Best(p, t, end + 1, s + n, caps, e, f);
        var m: nat :| LeastOften(p, t, pi, end, s, caps, m) && Best(p, t, end + 1, s + m, caps, e2, f2);
        BestIn(p, t, end + 1, s + n, caps, e, f);
        BestIn(p, t, end + 1, s + m, caps, e2, f2);
        BestUnique(p, t, end + 1, s + n, caps, e, f, e2, f2);
      case _ => BestUnique(p, t, end, s + 1, caps, e, f, e2, f2);
  }

  /** Captures are parts of the text up to s. */
  ghost predicate Within(caps: seq<Capture>, s: nat) {
    forall c <- caps :: c.init <= s && c.init + c.len <= s && (c.len >= 0 || c.len == UNFINISHED || c.len == POSITION)
  }

  /** Captures that are closed stay as they are, and all of them stay where they start. */
  ghost predicate Keeps(caps: seq<Capture>, f: seq<Capture>) {
    && |caps| <= |f|
    && forall j :: 0 <= j < |caps| ==> f[j].init == caps[j].init && (caps[j].len != UNFINISHED ==> f[j] == caps[j])
  }

  lemma GroupKeeps(p: string, t: string, pi: nat, s: nat, caps: seq<Capture>)
    requires pi <= |p| && s <= |t| && Within(caps, s) && MoveAt(p, t, pi, s, caps).Group?
    ensures Keeps(caps, MoveAt(p, t, pi, s, caps).caps) && Within(MoveAt(p, t, pi, s, caps).caps, s)
  {
    hide ItemMove, BalanceMove, FrontierMove, BackMove, OpenCapture;
  }

  /** A match ends in the text, after its start, and its captures are in it or before. */
  lemma {:induction false} InText(p: string, t: string, pi: nat, s: nat, caps: seq<Capture>, e: nat, f: seq<Capture>)
    requires pi <= |p| && s <= |t| && In(p, t, pi, s, caps, e, f) && Within(caps, s)
    ensures s <= e <= |t| && Within(f, e) && Keeps(caps, f)
    decreases |p| - pi
  {
    hide MoveAt, Single;
    match MoveAt(p, t, pi, s, caps)
    case Accept =>
    case Jump(pi1, s1) => InText(p, t, pi1, s1, caps, e, f);
    case Group(pi1, caps1) =>
      GroupKeeps(p, t, pi, s, caps);
      InText(p, t, pi1, s, caps1, e, f);
    case Item(end) =>
      match At(p, end)
      case '?' =>
        if In(p, t, end + 1, s, caps, e, f) {
          InText(p, t, end + 1, s, caps, e, f);
        } else {
          InText(p, t, end + 1, s + 1, caps, e, f);
        }
      case '*' =>
        var n: nat :| Repeats(p, t, pi, end, s, n) && In(p, t, end + 1, s + n, caps, e, f);
        InText(p, t, end + 1, s + n, caps, e, f);
      case '+' =>
        var n: nat :| n > 0 && Repeats(p, t, pi, end, s, n) && In(p, t, end + 1, s + n, caps, e, f);
        InText(p, t, end + 1, s + n, caps, e, f);
      case '-' =>
        var n: nat :| Repeats(p, t, pi, end, s, n) && In(p, t, end + 1, s + n, caps, e, f);
        InText(p, t, end + 1, s + n, caps, e, f);
      case _ => InText(p, t, end, s + 1, caps, e, f);
  }

  /** Openings minus closings in the text from k to j. */
  function Net(t: string, k: nat, j: nat, open: char, close: char): int
    requires k <= j <= |t|
    decreases j - k
  {
    if k == j then 0
    else (if t[k] == close then -1 else if t[k] == open then 1 else 0) + Net(t, k + 1, j, open, close)
  }

  ghost predicate StaysOpen(t: string, k: nat, to: nat, open: char, close: char, depth: nat) {
    to <= |t| + 1 && forall j: nat :: k <= j < to ==> depth + Net(t, k, j, open, close) > 0
  }

  /** The end of balanced text is the first place where as much is closed as opened. */
  lemma {:induction false} BalanceMeans(t: string, k: nat, open: char, close: char, depth: nat)
    requires depth > 0 && k <= |t|
    ensures match BalanceEnd(t, k, open, close, depth)
            case Some(end) => k <= end <= |t| && depth + Net(t, k, end, open, close) == 0
                && StaysOpen(t, k, end, open, close, depth)
            case None => StaysOpen(t, k, |t| + 1, open, close, depth)
    decreases |t| - k
  {
    if k < |t| {
      var d := depth + if t[k] == close then -1 else if t[k] == open then 1 else 0;
      if d > 0 {
        BalanceMeans(t, k + 1, open, close, d);
      }
    }
  }

  /** A pattern without captures whose items are all complete. */
  ghost predicate Plain(p: string, pi: nat)
    requires pi <= |p|
    decreases |p| - pi
  {
    match At(p, pi)
    case '\0' => true
    case '(' => false
    case ')' => false
    case '%' =>
      if At(p, pi + 1) == 'b' then At(p, pi + 2) != '\0' && At(p, pi + 3) != '\0' && Plain(p, pi + 4)
      else if At(p, pi + 1) == 'f' then
        At(p, pi + 2) == '[' && ItemEnd(p, pi + 2).Some? && Plain(p, ItemEnd(p, pi + 2).value)
      else !IsDigit(At(p, pi + 1)) && PlainItem(p, pi)
    case '$' => At(p, pi + 1) == '\0' || PlainItem(p, pi)
    case _ => PlainItem(p, pi)
  }

  ghost predicate PlainItem(p: string, pi: nat)
    requires pi < |p|
    decreases |p| - pi, 0
  {
    && ItemEnd(p, pi).Some?
    && var end := ItemEnd(p, pi).value;
       Plain(p, if At(p, end) in "?*+-" then end + 1 else end)
  }

  /** How many items are optional or repeated: each one is a level deeper. */
  ghost function Levels(p: string, pi: nat): nat
    requires pi <= |p| && Plain(p, pi)
    decreases |p| - pi
  {
    match At(p, pi)
    case '\0' => 0
    case '%' =>
      if At(p, pi + 1) == 'b' then Levels(p, pi + 4)
      else if At(p, pi + 1) == 'f' then Levels(p, ItemEnd(p, pi + 2).value)
      else ItemLevels(p, pi)
    case '$' => if At(p, pi + 1) == '\0' then 0 else ItemLevels(p, pi)
    case _ => ItemLevels(p, pi)
  }

  ghost function ItemLevels(p: string, pi: nat): nat
    requires pi < |p| && PlainItem(p, pi)
    decreases |p| - pi, 0
  {
    var end := ItemEnd(p, pi).value;
    if At(p, end) in "?*+-" then 1 + Levels(p, end + 1) else Levels(p, end)
  }

  lemma {:induction false} MostNoError(d: nat, p: string, t: string, pi: nat, s: nat, n: nat, caps: seq<Capture>)
    requires pi <= |p| && s + n <= |t| && Plain(p, pi) && d + 1 + Levels(p, pi) <= MAX_DEPTH
    ensures !Most(d, p, t, pi, s, n, caps).Error?
    decreases |p| - pi, 3, n
  {
    NoError(d + 1, p, t, pi, s + n, caps);
    hide GoOn, Levels, Plain;
    if n > 0 {
      MostNoError(d, p, t, pi, s, n - 1, caps);
    }
  }

  lemma {:induction false} LeastNoError(d: nat, p: string, t: string, pi: nat, end: nat, s: nat, caps: seq<Capture>)
    requires 0 < end < |p| && s <= |t| && Plain(p, end + 1) && d + 1 + Levels(p, end + 1) <= MAX_DEPTH
    ensures !Least(d, p, t, pi, end, s, caps).Error?
    decreases |p| - (end + 1), 3, |t| - s
  {
    NoError(d + 1, p, t, end + 1, s, caps);
    hide GoOn, Levels, Plain;
    if One(p, t, pi, end, s) {
      LeastNoError(d, p, t, pi, end, s + 1, caps);
    }
  }

  lemma {:induction false} ItemsNoError(d: nat, p: string, t: string, pi: nat, s: nat, caps: seq<Capture>)
    requires pi < |p| && s <= |t| && PlainItem(p, pi) && d + ItemLevels(p, pi) <= MAX_DEPTH
    ensures !Items(d, p, t, pi, ItemEnd(p, pi).value, s, caps).Error?
    decreases |p| - pi, 0, 0
  {
    var end := ItemEnd(p, pi).value;
    var m := One(p, t, pi, end, s);
    match At(p, end)
    case '?' =>
      if m {
        NoError(d + 1, p, t, end + 1, s + 1, caps);
      }
      NoError(d, p, t, end + 1, s, caps);
      hide GoOn, Levels, Plain;
    case '*' => MostNoError(d, p, t, end + 1, s, Longest(p, t, pi, end, s), caps);
    case '+' =>
      if m {
        MostNoError(d, p, t, end + 1, s + 1, Longest(p, t, pi, end, s + 1), caps);
      }
    case '-' => LeastNoError(d, p, t, pi, end, s, caps);
    case _ =>
      if m {
        NoError(d, p, t, end, s + 1, caps);
        hide GoOn, Levels, Plain;
      }
  }

  /** A pattern without captures and with few enough repeated items is searched without an error. */
  lemma {:induction false} NoError(d: nat, p: string, t: string, pi: nat, s: nat, caps: seq<Capture>)
    requires pi <= |p| && s <= |t| && Plain(p, pi) && d + Levels(p, pi) <= MAX_DEPTH
    ensures !GoOn(d, p, t, pi, s, caps).Error?
    decreases |p| - pi, 1, 0
  {
    match MoveAt(p, t, pi, s, caps)
    case Jump(pi1, s1) => NoError(d, p, t, pi1, s1, caps);
    case Item(end) => ItemsNoError(d, p, t, pi, s, caps);
    case _ =>
  }

  /** For a capture-free pattern the search is sound and complete: it finds a match if and only if
      there is one, and then the best one. */
  lemma CaptureFree(p: string, t: string, pi: nat, s: nat)
    requires pi <= |p| && s <= |t| && Plain(p, pi) && 1 + Levels(p, pi) <= MAX_DEPTH
    ensures var r := Search(0, p, t, pi, s, []);
            && !r.Error? && (r.Found? <==> Possible(p, t, pi, s, []))
            && forall e: nat, f: seq<Capture> :: r == Found(e, f) <==> Best(p, t, pi, s, [], e, f)
  {
    NoError(1, p, t, pi, s, []);
    SearchRight(0, p, t, pi, s, []);
    var r := Search(0, p, t, pi, s, []);
    hide GoOn, Search, In, Best;
    forall e: nat, f: seq<Capture> ensures r == Found(e, f) <==> Best(p, t, pi, s, [], e, f) {
      if Best(p, t, pi, s, [], e, f) {
        BestIn(p, t, pi, s, [], e, f);
        if r.Found? {
          BestUnique(p, t, pi, s, [], e, f, r.end, r.caps);
        }
      }
    }
  }
}
