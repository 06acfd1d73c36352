/** The backtracking matcher of Lua patterns: captures are written in place and undone on failure. */
module LuaMatch {
  import opened LuaChars
  import opened LuaPattern
  import opened LuaMeaning

  /** The end of a match, no match, or a run-time error. */
  datatype Outcome = Ok(end: nat) | NoMatch | Raise

  /** The outcome and the captures after it, from what the search by values finds. */
  ghost predicate Agrees(o: Outcome, after: seq<Capture>, r: Result, before: seq<Capture>) {
    match r
    case Found(e, f) => o == Ok(e) && after == f
    case Failed => o == NoMatch && after == before
    case Error => o == Raise
  }

  /** Whether the pattern goes on at p with the text from s on, or the matcher stops. */
  datatype Next = Go(p: nat, s: nat) | Stop(o: Outcome)

  ghost predicate Continues(next: Next, after: seq<Capture>, d: nat, p: string, t: string, pi: nat, s: nat,
                            before: seq<Capture>)
    requires pi <= |p| && s <= |t|
  {
    match next
    case Go(p1, s1) =>
      after == before && pi < p1 <= |p| && s <= s1 <= |t|
          && GoOn(d, p, t, pi, s, before) == GoOn(d, p, t, p1, s1, before)
    case Stop(o) => Agrees(o, after, GoOn(d, p, t, pi, s, before), before)
  }

  class MatchState {
    const src: string
    const pat: string
    const capture: array<Capture>
    var level: nat
    var depth: nat

    ghost predicate Valid()
      reads this
    {
      capture.Length == MAX_CAPTURES && level <= MAX_CAPTURES
    }

    ghost function Caps(): seq<Capture>
      reads this, capture
      requires Valid()
    {
      capture[..level]
    }

    constructor (src: string, pat: string)
      ensures Valid() && fresh(capture) && this.src == src && this.pat == pat && level == 0 && depth == 0
    {
      this.src, this.pat, level, depth := src, pat, 0, 0;
      capture := new Capture[MAX_CAPTURES](_ => Capture(0, 0));
    }

    /** capture_to_close. */
    method CaptureToClose() returns (l: Option<nat>)
      requires Valid()
      ensures l == OpenCapture(Caps())
    {
      var k: nat := level;
      while k > 0
        invariant k <= level <= capture.Length && capture[..level] == Caps()
                  && OpenCapture(Caps()) == OpenCapture(capture[..k])
      {
        k := k - 1;
        assert capture[..k + 1][..k] == capture[..k] && capture[..k + 1][k] == capture[k];
        if capture[k].len == UNFINISHED {
          return Some(k);
        }
      }
      l := None;
    }

    /** matchbalance. */
    method MatchBalance(s: nat, pi: nat) returns (o: Outcome)
      requires s <= |src|
      ensures o == match BalanceMove(pat, src, pi, s)
                   case Jump(_, e) => Ok(e)
                   case Bad => Raise
                   case _ => NoMatch
    {
      if At(pat, pi) == '\0' || At(pat, pi + 1) == '\0' {
        return Raise;
      }
      if At(src, s) != pat[pi] {
        return NoMatch;
      }
      var open, close, cont, k := pat[pi], pat[pi + 1], 1, s + 1;
      while k < |src|
        invariant cont > 0 && BalanceEnd(src, s + 1, open, close, 1) == BalanceEnd(src, k, open, close, cont)
      {
        if src[k] == close {
          cont := cont - 1;
          if cont == 0 {
            return Ok(k + 1);
          }
        } else if src[k] == open {
          cont := cont + 1;
        }
        k := k + 1;
      }
      o := NoMatch;
    }

    /** match_capture. */
    method MatchCapture(s: nat, digit: char) returns (o: Outcome)
      requires Valid() && s <= |src| && IsDigit(digit) && Within(Caps(), s)
      ensures o == match BackMove(src, 0, s, digit, Caps())
                   case Jump(_, e) => Ok(e)
                   case Bad => Raise
                   case _ => NoMatch
    {
      var l := digit as int - '1' as int;
      if l < 0 || l >= level || capture[l].len == UNFINISHED {
        return Raise;
      }
      var c := capture[l];
      assert c == Caps()[l];
      if c.len < 0 || c.len > |src| - s {
        return NoMatch;
      }
      var k: nat := 0;
      while k < c.len
        invariant k <= c.len && src[c.init..c.init + k] == src[s..s + k]
      {
        if src[c.init + k] != src[s + k] {
          assert src[c.init..c.init + c.len][k] != src[s..s + c.len][k];
          return NoMatch;
        }
        assert src[c.init..c.init + k + 1] == src[c.init..c.init + k] + [src[c.init + k]];
        assert src[s..s + k + 1] == src[s..s + k] + [src[s + k]];
        k := k + 1;
      }
      o := Ok(s + c.len);
    }

    /** max_expand, for the item at pi that ends before ep. */
    method MaxExpand(s: nat, pi: nat, ep: nat) returns (o: Outcome)
      requires Valid() && s <= |src| && pi < ep < |pat| && Within(Caps(), s)
      modifies this`level, this`depth, capture
      ensures Valid() && (o != Raise ==> depth == old(depth))
      ensures Agrees(o, Caps(), Most(old(depth), pat, src, ep + 1, s, Longest(pat, src, pi, ep, s), old(Caps())),
                     old(Caps()))
      decreases |pat| - (ep + 1), 5, 0
    {
      var i: nat := 0;
      var more := true;
      while more
        modifies {}
        invariant s + i <= |src| && Longest(pat, src, pi, ep, s) == i + if more then Longest(pat, src, pi, ep, s + i)
                    else 0
        decreases more, |src| - i
      {
        more := s + i < |src|;
        if more {
          more := SingleMatch(src[s + i], pat, pi, ep);
        }
        if more {
          i := i + 1;
        }
      }
      ghost var caps := Caps();
      while true
        invariant Valid() && depth == old(depth) && Caps() == caps && s + i <= |src|
        invariant Most(depth, pat, src, ep + 1, s, Longest(pat, src, pi, ep, s), caps)
                  == Most(depth, pat, src, ep + 1, s, i, caps)
        decreases i
      {
        o := Match(s + i, ep + 1);
        if o != NoMatch || i == 0 {
          return;
        }
        i := i - 1;
      }
    }

    /** min_expand. */
    method MinExpand(start: nat, pi: nat, ep: nat) returns (o: Outcome)
      requires Valid() && start <= |src| && pi < ep < |pat| && Within(Caps(), start)
      modifies this`level, this`depth, capture
      ensures Valid() && (o != Raise ==> depth == old(depth))
      ensures Agrees(o, Caps(), Least(old(depth), pat, src, pi, ep, start, old(Caps())), old(Caps()))
      decreases |pat| - (ep + 1), 5, 0
    {
      var s := start;
      ghost var caps := Caps();
      while true
        invariant start <= s <= |src| && Valid() && depth == old(depth) && Caps() == caps
        invariant Least(depth, pat, src, pi, ep, start, caps) == Least(depth, pat, src, pi, ep, s, caps)
        decreases |src| - s
      {
        o := Match(s, ep + 1);
        if o != NoMatch {
          return;
        }
        var more := s < |src|;
        if more {
          more := SingleMatch(src[s], pat, pi, ep);
        }
        if !more {
          return NoMatch;
        }
        s := s + 1;
      }
    }

    /** start_capture: the pattern goes on at pi. */
    method StartCapture(s: nat, pi: nat, what: int) returns (o: Outcome)
      requires Valid() && s <= |src| && pi <= |pat| && Within(Caps(), s) && (what == UNFINISHED || what == POSITION)
      modifies this`level, this`depth, capture
      ensures Valid() && (o != Raise ==> depth == old(depth))
      ensures old(level) >= MAX_CAPTURES ==> o == Raise
      ensures old(level) < MAX_CAPTURES ==>
        Agrees(o, Caps(), Search(old(depth), pat, src, pi, s, old(Caps()) + [Capture(s, what)]), old(Caps()))
      decreases |pat| - pi, 4, 0
    {
      if level >= MAX_CAPTURES {
        return Raise;
      }
      ghost var caps := Caps();
      capture[level] := Capture(s, what);
      level := level + 1;
      assert Caps() == caps + [Capture(s, what)];
      o := Match(s, pi);
      if o == NoMatch {
        assert Caps()[..|caps|] == caps;
        level := level - 1;
      }
    }

    /** end_capture: the pattern goes on at pi. */
    method EndCapture(s: nat, pi: nat) returns (o: Outcome)
      requires Valid() && s <= |src| && pi <= |pat| && Within(Caps(), s)
      modifies this`level, this`depth, capture
      ensures Valid() && (o != Raise ==> depth == old(depth))
      ensures match OpenCapture(old(Caps()))
              case None => o == Raise
              case Some(l) =>
                var c := old(Caps())[l];
                Agrees(o, Caps(), Search(old(depth), pat, src, pi, s, old(Caps())[l := Capture(c.init, s - c.init)]),
                       old(Caps()))
      decreases |pat| - pi, 4, 0
    {
      var open := CaptureToClose();
      if open.None? {
        return Raise;
      }
      var l := open.value;
      ghost var caps := Caps();
      assert capture[l] == caps[l];
      capture[l] := Capture(capture[l].init, s - capture[l].init);
      ghost var closed := caps[l := Capture(caps[l].init, s - caps[l].init)];
      assert Caps() == closed;
      o := Match(s, pi);
      if o == NoMatch {
        assert Caps()[l] == closed[l];
        capture[l] := Capture(capture[l].init, UNFINISHED);
        assert Caps() == caps;
      }
    }

    /** The escapes that need no choice: %b, %f and %1 to %9. */
    method Escape(s: nat, p: nat) returns (next: Next)
      requires Valid() && s <= |src| && p < |pat| && Within(Caps(), s) && At(pat, p) == '%'
      requires At(pat, p + 1) == 'b' || At(pat, p + 1) == 'f' || IsDigit(At(pat, p + 1))
      ensures next == match MoveAt(pat, src, p, s, Caps())
                      case Jump(p1, s1) => Go(p1, s1)
                      case Bad => Stop(Raise)
                      case _ => Stop(NoMatch)
    {
      hide BalanceEnd, SetHas, ItemMove, OpenCapture;
      match At(pat, p + 1)
      case 'b' =>
        var o := MatchBalance(s, p + 2);
        return if o.Ok? then Go(p + 4, o.end) else Stop(o);
      case 'f' =>
        if At(pat, p + 2) != '[' {
          return Stop(Raise);
        }
        var ep := ClassEnd(pat, p + 2);
        if ep.None? {
          return Stop(Raise);
        }
        var previous := if s == 0 then '\0' else src[s - 1];
        var before := MatchBracketClass(previous, pat, p + 2, ep.value - 1);
        var after := MatchBracketClass(At(src, s), pat, p + 2, ep.value - 1);
        return if before || !after then Stop(NoMatch) else Go(ep.value, s);
      case digit =>
        var o := MatchCapture(s, digit);
        return if o.Ok? then Go(p + 2, o.end) else Stop(o);
    }

    /** A pattern item, with or without a suffix. */
    method PatternItem(s: nat, p: nat) returns (next: Next)
      requires Valid() && s <= |src| && p < |pat| && Within(Caps(), s)
      requires MoveAt(pat, src, p, s, Caps()) == ItemMove(pat, p)
      modifies this`level, this`depth, capture
      ensures Valid() && (next != Stop(Raise) ==> depth == old(depth))
      ensures Continues(next, Caps(), old(depth), pat, src, p, s, old(Caps()))
      decreases |pat| - p, 1, 0
    {
      hide MoveAt, SetHas, OpenCapture, Single, Search, Most, Least;
      ghost var d, caps := depth, Caps();
      assert GoOn(d, pat, src, p, s, caps) ==
             if ItemEnd(pat, p).None? then Error else Items(d, pat, src, p, ItemEnd(pat, p).value, s, caps);
      var ep := ClassEnd(pat, p);
      if ep.None? {
        return Stop(Raise);
      }
      var m := s < |src|;
      if m {
        m := SingleMatch(src[s], pat, p, ep.value);
      }
      var o := NoMatch;
      match At(pat, ep.value)
      case '?' =>
        if m {
          o := Match(s + 1, ep.value + 1);
        }
        assert o == NoMatch ==>
                 Caps() == caps && GoOn(d, pat, src, p, s, caps) == GoOn(d, pat, src, ep.value + 1, s, caps);
        assert o != NoMatch ==> Agrees(o, Caps(), GoOn(d, pat, src, p, s, caps), caps);
        return if o == NoMatch then Go(ep.value + 1, s) else Stop(o);
      case '*' =>
        o := MaxExpand(s, p, ep.value);
        return Stop(o);
      case '+' =>
        if m {
          o := MaxExpand(s + 1, p, ep.value);
        }
        return Stop(o);
      case '-' =>
        o := MinExpand(s, p, ep.value);
        return Stop(o);
      case _ =>
        return if m then Go(ep.value, s + 1) else Stop(NoMatch);
    }

    /** What the pattern asks for at p. */
    method Step(s: nat, p: nat) returns (next: Next)
      requires Valid() && s <= |src| && p <= |pat| && Within(Caps(), s)
      modifies this`level, this`depth, capture
      ensures Valid() && (next != Stop(Raise) ==> depth == old(depth))
      ensures Continues(next, Caps(), old(depth), pat, src, p, s, old(Caps()))
      decreases |pat| - p, 2, 0
    {
      hide ItemMove, BalanceMove, FrontierMove, BackMove, Search, Items;
      match At(pat, p)
      case '(' =>
        var o;
        if At(pat, p + 1) == ')' {
          o := StartCapture(s, p + 2, POSITION);
        } else {
          o := StartCapture(s, p + 1, UNFINISHED);
        }
        return Stop(o);
      case ')' =>
        var o := EndCapture(s, p + 1);
        return Stop(o);
      case '\0' =>
        return Stop(Ok(s));
      case c =>
        if c == '%' && (At(pat, p + 1) == 'b' || At(pat, p + 1) == 'f' || IsDigit(At(pat, p + 1))) {
          next := Escape(s, p);
        } else if c == '$' && At(pat, p + 1) == '\0' {
          next := Stop(if s == |src| then Ok(s) else NoMatch);
        } else {
          next := PatternItem(s, p);
        }
    }

    /** match: the search by values from one level deeper on. */
    method Match(start: nat, first: nat) returns (o: Outcome)
      requires Valid() && start <= |src| && first <= |pat| && Within(Caps(), start)
      modifies this`level, this`depth, capture
      ensures Valid() && (o != Raise ==> depth == old(depth))
      ensures Agrees(o, Caps(), Search(old(depth), pat, src, first, start, old(Caps())), old(Caps()))
      decreases |pat| - first, 3, 0
    {
      depth := depth + 1;
      if depth > MAX_DEPTH {
        return Raise;
      }
      var s, p := start, first;
      ghost var caps := Caps();
      while true
        invariant Valid() && depth == old(depth) + 1 && Caps() == caps
        invariant start <= s <= |src| && first <= p <= |pat|
        invariant Search(old(depth), pat, src, first, start, caps) == GoOn(depth, pat, src, p, s, caps)
        decreases |pat| - p
      {
        hide GoOn;
        var next := Step(s, p);
        match next
        case Go(p1, s1) => s, p := s1, p1;
        case Stop(r) =>
          if r != Raise {
            depth := depth - 1;
          }
          return r;
      }
    }
  }
}
