/** The language of Lua patterns, and the order in which the matcher looks for a match. */
module LuaPattern {
  import opened LuaChars

  const MAX_DEPTH: nat := 200
  const MAX_CAPTURES: nat := 32
  const UNFINISHED: int := -1
  const POSITION: int := -2

  datatype Capture = Capture(init: nat, len: int)

  /** A match up to end with its captures, no match, or a run-time error. */
  datatype Result = Found(end: nat, caps: seq<Capture>) | Failed | Error

  /** The innermost capture that is still open. */
  function OpenCapture(caps: seq<Capture>): (l: Option<nat>)
    ensures l.Some? ==> l.value < |caps| && caps[l.value].len == UNFINISHED
                        && forall j :: l.value < j < |caps| ==> caps[j].len != UNFINISHED
    ensures l.None? ==> forall j :: 0 <= j < |caps| ==> caps[j].len != UNFINISHED
  {
    if caps == [] then None
    else if caps[|caps| - 1].len == UNFINISHED then Some(|caps| - 1)
    else OpenCapture(caps[..|caps| - 1])
  }

  /** The end of the balanced string, from k on with so many openings open. */
  function BalanceEnd(t: string, k: nat, open: char, close: char, depth: nat): (end: Option<nat>)
    requires depth > 0
    ensures end.Some? ==> k < end.value <= |t|
    decreases |t| - k
  {
    if k >= |t| then None
    else if t[k] == close then if depth == 1 then Some(k + 1) else BalanceEnd(t, k + 1, open, close, depth - 1)
    else if t[k] == open then BalanceEnd(t, k + 1, open, close, depth + 1)
    else BalanceEnd(t, k + 1, open, close, depth)
  }

  /** What the pattern asks for at pi: the end of the match, no match, an error, to go on without any
      choice, to go on with other captures, or an item that ends before end. */
  datatype Move = Accept | Reject | Bad | Jump(pi: nat, s: nat) | Group(pi: nat, caps: seq<Capture>) | Item(end: nat)

  function ItemMove(p: string, pi: nat): (m: Move)
    requires pi < |p|
    ensures m.Bad? || (m.Item? && pi < m.end <= |p|)
  {
    match ItemEnd(p, pi)
    case None => Bad
    case Some(end) => Item(end)
  }

  /** %b */
  function BalanceMove(p: string, t: string, pi: nat, s: nat): (m: Move)
    requires s <= |t|
    ensures m.Jump? ==> m.pi == pi + 2 <= |p| && s < m.s <= |t|
    ensures m.Jump? || m.Bad? || m.Reject?
  {
    if At(p, pi) == '\0' || At(p, pi + 1) == '\0' then Bad
    else if At(t, s) != p[pi] then Reject
    else
      match BalanceEnd(t, s + 1, p[pi], p[pi + 1], 1)
      case None => Reject
      case Some(end) => Jump(pi + 2, end)
  }

  /** %f: between a character that is not in the set and one that is. */
  function FrontierMove(p: string, t: string, pi: nat, s: nat): (m: Move)
    requires s <= |t|
    ensures m.Jump? ==> pi < m.pi <= |p| && m.s == s
    ensures m.Jump? || m.Bad? || m.Reject?
  {
    if At(p, pi) != '[' then Bad
    else
      match ItemEnd(p, pi)
      case None => Bad
      case Some(end) =>
        var previous := if s == 0 then '\0' else t[s - 1];
        if SetHas(previous, p, pi, end - 1) || !SetHas(At(t, s), p, pi, end - 1) then Reject else Jump(end, s)
  }

  /** %1 to %9: the text of a capture again. The length of a position capture is huge as a size. */
  function BackMove(t: string, pi: nat, s: nat, digit: char, caps: seq<Capture>): (m: Move)
    requires s <= |t| && IsDigit(digit)
    ensures m.Jump? ==> m.pi == pi && s <= m.s <= |t|
    ensures m.Jump? || m.Bad? || m.Reject?
  {
    var l := digit as int - '1' as int;
    if l < 0 || l >= |caps| || caps[l].len == UNFINISHED then Bad
    else if caps[l].len >= 0 && caps[l].len <= |t| - s && caps[l].init + caps[l].len <= |t|
            && t[caps[l].init..caps[l].init + caps[l].len] == t[s..s + caps[l].len]
    then Jump(pi, s + caps[l].len)
    else Reject
  }

  function MoveAt(p: string, t: string, pi: nat, s: nat, caps: seq<Capture>): (m: Move)
    requires pi <= |p| && s <= |t|
    ensures m.Jump? ==> pi < m.pi <= |p| && s <= m.s <= |t|
    ensures m.Group? ==> pi < m.pi <= |p|
    ensures m.Item? ==> pi < m.end <= |p|
  {
    match At(p, pi)
    case '\0' => Accept
    case '(' =>
      if |caps| >= MAX_CAPTURES then Bad
      else if At(p, pi + 1) == ')' then Group(pi + 2, caps + [Capture(s, POSITION)])
      else Group(pi + 1, caps + [Capture(s, UNFINISHED)])
    case ')' =>
      (match OpenCapture(caps)
       case None => Bad
       case Some(l) => Group(pi + 1, caps[l := Capture(caps[l].init, s - caps[l].init)]))
    case '%' =>
      if At(p, pi + 1) == 'b' then BalanceMove(p, t, pi + 2, s)
      else if At(p, pi + 1) == 'f' then FrontierMove(p, t, pi + 2, s)
      else if IsDigit(At(p, pi + 1)) then BackMove(t, pi + 2, s, At(p, pi + 1), caps)
      else ItemMove(p, pi)
    case '$' =>
      if At(p, pi + 1) != '\0' then ItemMove(p, pi) else if s == |t| then Accept else Reject
    case _ => ItemMove(p, pi)
  }

  /** n characters of the text from s on that the item matches. */
  ghost predicate Repeats(p: string, t: string, pi: nat, end: nat, s: nat, n: nat)
    requires end > 0
  {
    s + n <= |t| && forall j: nat :: s <= j < s + n ==> Single(t[j], p, pi, end)
  }

  /** The text from s to e matches the pattern from pi on, and leaves the captures f. */
  ghost predicate In(p: string, t: string, pi: nat, s: nat, caps: seq<Capture>, e: nat, f: seq<Capture>)
    requires pi <= |p| && s <= |t|
    decreases |p| - pi
  {
    match MoveAt(p, t, pi, s, caps)
    case Accept => e == s && f == caps
    case Reject => false
    case Bad => false
    case Jump(pi1, s1) => In(p, t, pi1, s1, caps, e, f)
    case Group(pi1, caps1) => In(p, t, pi1, s, caps1, e, f)
    case Item(end) =>
      match At(p, end)
      case '?' => In(p, t, end + 1, s, caps, e, f)
          || (Repeats(p, t, pi, end, s, 1) && In(p, t, end + 1, s + 1, caps, e, f))
      case '*' => exists n: nat :: Repeats(p, t, pi, end, s, n) && In(p, t, end + 1, s + n, caps, e, f)
      case '+' => exists n: nat :: n > 0 && Repeats(p, t, pi, end, s, n) && In(p, t, end + 1, s + n, caps, e, f)
      case '-' => exists n: nat :: Repeats(p, t, pi, end, s, n) && In(p, t, end + 1, s + n, caps, e, f)
      case _ => Repeats(p, t, pi, end, s, 1) && In(p, t, end, s + 1, caps, e, f)
  }

  ghost predicate Possible(p: string, t: string, pi: nat, s: nat, caps: seq<Capture>)
    requires pi <= |p| && s <= |t|
  {
    exists e: nat, f: seq<Capture> :: In(p, t, pi, s, caps, e, f)
  }

  /** The item as often as possible such that the rest still matches. */
  ghost predicate MostOften(p: string, t: string, pi: nat, end: nat, s: nat, caps: seq<Capture>, n: nat)
    requires 0 < end < |p|
  {
    && Repeats(p, t, pi, end, s, n)
    && forall m: nat :: m > n && Repeats(p, t, pi, end, s, m) ==> !Possible(p, t, end + 1, s + m, caps)
  }

  /** The item as seldom as possible such that the rest still matches. */
  ghost predicate LeastOften(p: string, t: string, pi: nat, end: nat, s: nat, caps: seq<Capture>, n: nat)
    requires 0 < end < |p|
  {
    && Repeats(p, t, pi, end, s, n)
    && forall m: nat :: m < n && Repeats(p, t, pi, end, s, m) ==> !Possible(p, t, end + 1, s + m, caps)
  }

  /** The match that is to be found: each ?, * and + takes as much and each - as little as it can,
      the earlier ones first. */
  ghost predicate Best(p: string, t: string, pi: nat, s: nat, caps: seq<Capture>, e: nat, f: seq<Capture>)
    requires pi <= |p| && s <= |t|
    decreases |p| - pi
  {
    match MoveAt(p, t, pi, s, caps)
    case Accept => e == s && f == caps
    case Reject => false
    case Bad => false
    case Jump(pi1, s1) => Best(p, t, pi1, s1, caps, e, f)
    case Group(pi1, caps1) => Best(p, t, pi1, s, caps1, e, f)
    case Item(end) =>
      match At(p, end)
      case '?' =>
        if Repeats(p, t, pi, end, s, 1) && Possible(p, t, end + 1, s + 1, caps)
            then Best(p, t, end + 1, s + 1, caps, e, f)
        else Best(p, t, end + 1, s, caps, e, f)
      case '*' => exists n: nat :: MostOften(p, t, pi, end, s, caps, n) && Best(p, t, end + 1, s + n, caps, e, f)
      case '+' => exists n: nat ::
          n > 0 && MostOften(p, t, pi, end, s, caps, n) && Best(p, t, end + 1, s + n, caps, e, f)
      case '-' => exists n: nat :: LeastOften(p, t, pi, end, s, caps, n) && Best(p, t, end + 1, s + n, caps, e, f)
      case _ => Repeats(p, t, pi, end, s, 1) && Best(p, t, end, s + 1, caps, e, f)
  }

  // The search of the matcher, with captures as values.

  predicate One(p: string, t: string, pi: nat, end: nat, s: nat)
    requires end > 0
  {
    s < |t| && Single(t[s], p, pi, end)
  }

  /** How often the item matches in a row. */
  function Longest(p: string, t: string, pi: nat, end: nat, s: nat): (n: nat)
    requires end > 0 && s <= |t|
    ensures s + n <= |t|
    decreases |t| - s
  {
    if One(p, t, pi, end, s) then 1 + Longest(p, t, pi, end, s + 1) else 0
  }

  /** match: one level deeper. */
  ghost function Search(d: nat, p: string, t: string, pi: nat, s: nat, caps: seq<Capture>): Result
    requires pi <= |p| && s <= |t|
    decreases |p| - pi, 2, 0
  {
    if d + 1 > MAX_DEPTH then Error else GoOn(d + 1, p, t, pi, s, caps)
  }

  /** match from the label init on. */
  ghost function GoOn(d: nat, p: string, t: string, pi: nat, s: nat, caps: seq<Capture>): Result
    requires pi <= |p| && s <= |t|
    decreases |p| - pi, 1, 0
  {
    match MoveAt(p, t, pi, s, caps)
    case Accept => Found(s, caps)
    case Reject => Failed
    case Bad => Error
    case Jump(pi1, s1) => GoOn(d, p, t, pi1, s1, caps)
    case Group(pi1, caps1) => Search(d, p, t, pi1, s, caps1)
    case Item(end) => Items(d, p, t, pi, end, s, caps)
  }

  ghost function Items(d: nat, p: string, t: string, pi: nat, end: nat, s: nat, caps: seq<Capture>): Result
    requires pi < end <= |p| && s <= |t|
    decreases |p| - pi, 0, 0
  {
    match At(p, end)
    case '?' =>
      var r := if One(p, t, pi, end, s) then Search(d, p, t, end + 1, s + 1, caps) else Failed;
      if r.Failed? then GoOn(d, p, t, end + 1, s, caps) else r
    case '*' => Most(d, p, t, end + 1, s, Longest(p, t, pi, end, s), caps)
    case '+' => if One(p, t, pi, end, s) then Most(d, p, t, end + 1, s + 1, Longest(p, t, pi, end, s + 1), caps)
        else Failed
    case '-' => Least(d, p, t, pi, end, s, caps)
    case _ => if One(p, t, pi, end, s) then GoOn(d, p, t, end, s + 1, caps) else Failed
  }

  /** max_expand: with n repetitions, then with fewer. */
  ghost function Most(d: nat, p: string, t: string, pi: nat, s: nat, n: nat, caps: seq<Capture>): Result
    requires pi <= |p| && s + n <= |t|
    decreases |p| - pi, 3, n
  {
    var r := Search(d, p, t, pi, s + n, caps);
    if r.Failed? && n > 0 then Most(d, p, t, pi, s, n - 1, caps) else r
  }

  /** min_expand: without a repetition, then with more. */
  ghost function Least(d: nat, p: string, t: string, pi: nat, end: nat, s: nat, caps: seq<Capture>): Result
    requires 0 < end < |p| && s <= |t|
    decreases |p| - (end + 1), 3, |t| - s
  {
    var r := Search(d, p, t, end + 1, s, caps);
    if r.Failed? && One(p, t, pi, end, s) then Least(d, p, t, pi, end, s + 1, caps) else r
  }
}
