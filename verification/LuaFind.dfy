/** string.find and string.match: the leftmost match, and the plain search that replaces it. */
module LuaFind {
  import opened LuaChars
  import opened LuaPattern
  import opened LuaSearch
  import opened LuaMeaning
  import opened LuaMatch
  import opened LuaSets
  import opened LuaTokens

  const SPECIALS: string := "^$*+?.([%-"

  ghost predicate Occurs(t: string, p: string, k: nat) {
    k + |p| <= |t| && t[k..k + |p|] == p
  }

  /** k is the first place from start on where p occurs, if it does. */
  ghost predicate FirstOccurrence(t: string, p: string, start: nat, k: Option<nat>) {
    match k
    case Some(k) => start <= k && Occurs(t, p, k) && forall j: nat :: start <= j < k ==> !Occurs(t, p, j)
    case None => forall j: nat :: start <= j ==> !Occurs(t, p, j)
  }

  lemma OtherStart(t: string, p: string, j: nat)
    requires |p| > 0 && (j + |p| > |t| || t[j] != p[0] || t[j + 1..j + |p|] != p[1..])
    ensures !Occurs(t, p, j)
  {
    if j + |p| <= |t| {
      assert t[j..j + |p|][0] == t[j] && t[j..j + |p|][1..] == t[j + 1..j + |p|];
    }
  }

  /** lmemfind: looks for the first character, then compares the rest. */
  method MemFind(t: string, start: nat, p: string) returns (k: Option<nat>)
    requires start <= |t|
    ensures FirstOccurrence(t, p, start, k)
  {
    if |p| == 0 {
      return Some(start);
    }
    if |p| > |t| - start {
      return None;
    }
    var pos, left := start, |t| - start - (|p| - 1);
    while left > 0
      invariant 0 <= left && start <= pos && pos + left == |t| - (|p| - 1)
      invariant forall j: nat :: start <= j < pos ==> !Occurs(t, p, j)
      decreases left
    {
      if t[pos] == p[0] && t[pos + 1..pos + |p|] == p[1..] {
        assert t[pos..pos + |p|] == [t[pos]] + t[pos + 1..pos + |p|];
        return Some(pos);
      }
      OtherStart(t, p, pos);
      pos, left := pos + 1, left - 1;
    }
    forall j: nat | start <= j ensures !Occurs(t, p, j) {
      if j >= pos {
        OtherStart(t, p, j);
      }
    }
    k := None;
  }

  /** The search at one place with a fresh state. */
  ghost function SearchAt(p: string, t: string, first: nat, s: nat): Result
    requires first <= |p| && s <= |t|
  {
    Search(0, p, t, first, s, [])
  }

  /** The search of str_find_aux: the pattern from first on, at start and, unless it is anchored, at
      every later place until there is a match. */
  method FindFrom(ms: MatchState, first: nat, start: nat, anchor: bool) returns (o: Outcome, s: nat)
    requires ms.Valid() && first <= |ms.pat| && start <= |ms.src|
    modifies ms, ms.capture
    ensures ms.Valid()
    ensures o.Ok? ==>
              start <= s <= |ms.src| && (anchor ==> s == start)
                  && SearchAt(ms.pat, ms.src, first, s) == Found(o.end, ms.Caps())
    ensures o.Ok? ==> forall j: nat :: start <= j < s ==> SearchAt(ms.pat, ms.src, first, j) == Failed
    ensures o == NoMatch ==> forall j: nat :: start <= j <= (if anchor then start else |ms.src|) ==>
                                               SearchAt(ms.pat, ms.src, first, j) == Failed
    ensures o == Raise ==> exists j: nat :: start <= j <= |ms.src| && SearchAt(ms.pat, ms.src, first, j) == Error
  {
    s := start;
    while true
      invariant ms.Valid() && start <= s <= |ms.src| && (anchor ==> s == start)
      invariant forall j: nat :: start <= j < s ==> SearchAt(ms.pat, ms.src, first, j) == Failed
      decreases |ms.src| - s
    {
      hide Search;
      ms.level, ms.depth := 0, 0;
      o := ms.Match(s, first);
      assert Agrees(o, ms.Caps(), SearchAt(ms.pat, ms.src, first, s), []);
      if o != NoMatch || s == |ms.src| || anchor {
        return;
      }
      s := s + 1;
    }
  }

  /** What string.find and string.match look for: the leftmost place with a match, and there the best one. */
  ghost predicate Leftmost(p: string, t: string, first: nat, start: nat, anchor: bool, s: nat, e: nat, f: seq<Capture>)
    requires first <= |p|
  {
    && start <= s <= e <= |t| && (anchor ==> s == start) && Best(p, t, first, s, [], e, f) && Within(f, e)
    && forall j: nat :: start <= j < s ==> !Possible(p, t, first, j, [])
  }

  ghost predicate IsLeftmost(p: string, t: string, first: nat, start: nat, anchor: bool, s: nat, f: seq<Capture>)
    requires first <= |p|
  {
    exists e: nat :: Leftmost(p, t, first, start, anchor, s, e, f)
  }

  ghost predicate NoPlace(p: string, t: string, first: nat, start: nat, anchor: bool)
    requires first <= |p|
  {
    forall j: nat :: start <= j <= (if anchor then start else |t|) && j <= |t| ==> !Possible(p, t, first, j, [])
  }

  /** The pattern is the tokens, from first on. */
  predicate Spells(p: string, first: nat, ts: seq<Token>, atEnd: bool) {
    WellFormed(ts, atEnd) && Rest(p, first, Print(ts, atEnd))
  }

  /** From s to e the text is what the tokens mean, and there is nothing like that before s. */
  ghost predicate FirstMeaning(ts: seq<Token>, atEnd: bool, t: string, start: nat, s: nat, e: nat, f: seq<Capture>) {
    && start <= s <= |t| && Means(ts, atEnd, t, s, [], e, f)
    && forall j: nat, e1: nat, f1 :: start <= j < s ==> !Means(ts, atEnd, t, j, [], e1, f1)
  }

  ghost predicate NoMeaning(ts: seq<Token>, atEnd: bool, t: string, start: nat, anchor: bool) {
    forall j: nat, e: nat, f ::
      start <= j <= (if anchor then start else |t|) && j <= |t| ==> !Means(ts, atEnd, t, j, [], e, f)
  }

  lemma TokensPossible(p: string, t: string, first: nat, s: nat, ts: seq<Token>, atEnd: bool)
    requires Spells(p, first, ts, atEnd) && s <= |t|
    ensures Possible(p, t, first, s, []) <==> exists e: nat, f :: Means(ts, atEnd, t, s, [], e, f)
  {
    forall e: nat, f ensures In(p, t, first, s, [], e, f) <==> Means(ts, atEnd, t, s, [], e, f) {
      TokensMean(p, first, ts, atEnd, t, s, [], e, f);
    }
    hide In, Means, Spells;
    if Possible(p, t, first, s, []) {
      var e: nat, f :| In(p, t, first, s, [], e, f);
      assert Means(ts, atEnd, t, s, [], e, f);
    }
    if e: nat, f :| Means(ts, atEnd, t, s, [], e, f) {
      assert In(p, t, first, s, [], e, f);
    }
  }

  lemma LeftmostMeans(p: string, t: string, first: nat, start: nat, anchor: bool, s: nat, e: nat, f: seq<Capture>,
                      ts: seq<Token>, atEnd: bool)
    requires Spells(p, first, ts, atEnd) && first <= |p| && Leftmost(p, t, first, start, anchor, s, e, f)
    ensures FirstMeaning(ts, atEnd, t, start, s, e, f)
  {
    hide In, Means, Spells, Possible, Best;
    BestIn(p, t, first, s, [], e, f);
    TokensFit(p, first, ts, atEnd, t, s, e, f);
    forall j: nat, e1: nat, f1 | start <= j < s ensures !Means(ts, atEnd, t, j, [], e1, f1) {
      TokensPossible(p, t, first, j, ts, atEnd);
    }
  }

  lemma TokensFit(p: string, first: nat, ts: seq<Token>, atEnd: bool, t: string, s: nat, e: nat, f: seq<Capture>)
    requires Spells(p, first, ts, atEnd) && first <= |p| && s <= |t| && In(p, t, first, s, [], e, f)
    ensures Means(ts, atEnd, t, s, [], e, f)
  {
    TokensMean(p, first, ts, atEnd, t, s, [], e, f);
  }

  lemma NoPlaceMeans(p: string, t: string, first: nat, start: nat, anchor: bool, ts: seq<Token>, atEnd: bool)
    requires Spells(p, first, ts, atEnd) && first <= |p| && NoPlace(p, t, first, start, anchor)
    ensures NoMeaning(ts, atEnd, t, start, anchor)
  {
    hide Means, Spells, Possible;
    forall j: nat, e: nat, f | start <= j <= (if anchor then start else |t|) && j <= |t|
      ensures !Means(ts, atEnd, t, j, [], e, f) {
      TokensPossible(p, t, first, j, ts, atEnd);
    }
  }

  /** posrelat, and the start of the search: positions count from 1, negative ones from the end. */
  function StartOf(init: int, len: nat): (k: nat)
    ensures 1 <= init <= len + 1 ==> k == init - 1
    ensures -(len as int) <= init < 0 ==> k == len + init
    ensures init == 0 || init < -(len as int) ==> k == 0
    ensures init > len + 1 ==> k == len
  {
    var pos := if init < 0 then init + len + 1 else init;
    var i := (if pos >= 0 then pos else 0) - 1;
    if i < 0 then 0 else if i > len then len else i
  }

  /** The characters up to the first zero have no special one among them. */
  predicate NoSpecials(p: string) {
    p == "" || p[0] == '\0' || (p[0] !in SPECIALS && NoSpecials(p[1..]))
  }

  /** What a script gets for a capture. */
  datatype Value = Text(text: string) | Place(position: int)

  function ValueOf(t: string, c: Capture): Value
    requires c.init + c.len <= |t| && (c.len >= 0 || c.len == POSITION)
  {
    if c.len == POSITION then Place(c.init + 1) else Text(t[c.init..c.init + c.len])
  }

  predicate Closed(caps: seq<Capture>) { forall c <- caps :: c.len != UNFINISHED }

  /** The values are those of the captures, or the whole match if it is asked for and there are none. */
  ghost predicate Pushed(t: string, caps: seq<Capture>, whole: Option<string>, values: seq<Value>)
    requires Within(caps, |t|) && Closed(caps)
  {
    if caps == [] && whole.Some? then values == [Text(whole.value)]
    else |values| == |caps| && forall i :: 0 <= i < |caps| ==> values[i] == ValueOf(t, caps[i])
  }

  /** push_captures: raises an error at a capture that is still open. */
  method PushCaptures(t: string, caps: seq<Capture>, whole: Option<string>) returns (ok: bool, values: seq<Value>)
    requires Within(caps, |t|)
    ensures ok <==> Closed(caps)
    ensures ok ==> Pushed(t, caps, whole, values)
  {
    values := [];
    if caps == [] && whole.Some? {
      return true, [Text(whole.value)];
    }
    var i := 0;
    while i < |caps|
      invariant 0 <= i <= |caps| && Closed(caps[..i]) && |values| == i
      invariant forall j :: 0 <= j < i ==> values[j] == ValueOf(t, caps[j])
    {
      assert caps[i] in caps;
      if caps[i].len == UNFINISHED {
        return false, [];
      }
      values := values + [ValueOf(t, caps[i])];
      i := i + 1;
      assert caps[..i] == caps[..i - 1] + [caps[i - 1]];
    }
    assert caps[..i] == caps;
    ok := true;
  }

  /** str_find_aux, for string.find and otherwise for string.match. */
  method StrFind(t: string, p: string, init: int, find: bool, plain: bool)
    returns (o: Outcome, s: nat, caps: seq<Capture>, values: seq<Value>)
    ensures find && (plain || NoSpecials(p)) ==>
              FirstOccurrence(t, p, StartOf(init, |t|), if o.Ok? then Some(s) else None)
                  && (o == Ok(s + |p|) || o == NoMatch)
    ensures !(find && (plain || NoSpecials(p))) ==>
              var first, start := if At(p, 0) == '^' then 1 else 0, StartOf(init, |t|);
              match o
              case Ok(e) =>
                && Leftmost(p, t, first, start, first == 1, s, e, caps) && Closed(caps) && Within(caps, |t|)
                && Pushed(t, caps, if find then None else Some(t[s..e]), values)
                && forall ts, atEnd :: Spells(p, first, ts, atEnd) ==> FirstMeaning(ts, atEnd, t, start, s, e, caps)
              case NoMatch =>
                && NoPlace(p, t, first, start, first == 1)
                && forall ts, atEnd :: Spells(p, first, ts, atEnd) ==> NoMeaning(ts, atEnd, t, start, first == 1)
              case Raise =>
                || (exists j: nat :: start <= j <= |t| && SearchAt(p, t, first, j) == Error)
                || (!Closed(caps) && IsLeftmost(p, t, first, start, first == 1, s, caps))
  {
    var start := StartOf(init, |t|);
    caps, values := [], [];
    if find && (plain || NoSpecials(p)) {
      var k := MemFind(t, start, p);
      match k
      case Some(k) => return Ok(k + |p|), k, [], [];
      case None => return NoMatch, 0, [], [];
    }
    hide NoSpecials, In, Best, Possible, GoOn, Search, ValueOf, Spells, FirstMeaning, NoMeaning;
    var ms := new MatchState(t, p);
    var first := if At(p, 0) == '^' then 1 else 0;
    o, s := FindFrom(ms, first, start, first == 1);
    caps := ms.capture[..ms.level];
    if o != Raise {
      forall j: nat | start <= j <= |t| && SearchAt(p, t, first, j) == Failed ensures !Possible(p, t, first, j, []) {
        SearchRight(0, p, t, first, j, []);
      }
    }
    if o.Ok? {
      SearchRight(0, p, t, first, s, []);
      InText(p, t, first, s, [], o.end, caps);
      assert Leftmost(p, t, first, start, first == 1, s, o.end, caps);
      forall ts, atEnd | Spells(p, first, ts, atEnd) ensures FirstMeaning(ts, atEnd, t, start, s, o.end, caps) {
        LeftmostMeans(p, t, first, start, first == 1, s, o.end, caps, ts, atEnd);
      }
      var ok;
      ok, values := PushCaptures(t, caps, if find then None else Some(t[s..o.end]));
      if !ok {
        o := Raise;
      }
    } else if o == NoMatch {
      forall ts, atEnd | Spells(p, first, ts, atEnd) ensures NoMeaning(ts, atEnd, t, start, first == 1) {
        NoPlaceMeans(p, t, first, start, first == 1, ts, atEnd);
      }
    }
  }

  const WORD: string := "^%w+$"

  lemma WordSpelled()
    ensures Spells(WORD, 1, [Match(Class('w'), Plus)], true)
    ensures Plain(WORD, 1) && Levels(WORD, 1) == 1
  {
    var ts := [Match(Class('w'), Plus)];
    assert ts[1..] == [];
    assert Print(ts, true) == "%w+" + "$" == WORD[1..];
    assert ItemEnd(WORD, 1) == Some(3);
  }

  /** The usual test for a word: it is found just in a text of letters and digits that is not empty. */
  lemma WordFound(t: string)
    ensures SearchAt(WORD, t, 1, 0) == if t != "" && forall c <- t :: Alnum(c) then Found(|t|, []) else Failed
  {
    var ts := [Match(Class('w'), Plus)];
    WordSpelled();
    CaptureFree(WORD, t, 1, 0);
    forall e: nat, f ensures In(WORD, t, 1, 0, [], e, f) <==> Means(ts, true, t, 0, [], e, f) {
      TokensMean(WORD, 1, ts, true, t, 0, [], e, f);
    }
    WordMeans(t);
    var r := SearchAt(WORD, t, 1, 0);
    hide In, Means, Best, Search, Spells, Alnum;
    if t != "" && forall c <- t :: Alnum(c) {
      assert In(WORD, t, 1, 0, [], |t|, []);
    }
    if r.Found? {
      BestIn(WORD, t, 1, 0, [], r.end, r.caps);
    }
  }

  lemma WordMeans(t: string)
    ensures forall e: nat, f :: Means([Match(Class('w'), Plus)], true, t, 0, [], e, f) <==>
                                (e == |t| && f == [] && t != "" && forall c <- t :: Alnum(c))
  {
    var ts := [Match(Class('w'), Plus)];
    assert ts[1..] == [];
    WordRun(t);
    hide Alnum, Run;
    assert forall n: nat, e: nat, f | n <= |t| ::
        Means([], true, t, n, [], e, f) <==> e == n == |t| && f == [];
  }

  lemma WordRun(t: string)
    ensures Run(Class('w'), t, 0, |t|) <==> forall c <- t :: Alnum(c)
    ensures forall n: nat :: Run(Class('w'), t, 0, n) ==> n <= |t|
  {
    hide Alnum, Spelled;
    WordClass();
  }

  lemma WordClass()
    ensures forall c: char :: InClass(c, 'w') <==> Alnum(c)
  {
    hide Alnum;
  }

  /** A character that stands for itself, and is not followed by a suffix. */
  predicate Literal(c: char) {
    c !in SPECIALS && c != ')' && c != '\0'
  }

  lemma LiteralStep(d: nat, p: string, t: string, pi: nat, s: nat, caps: seq<Capture>)
    requires pi < |p| && s <= |t| && Literal(p[pi]) && At(p, pi + 1) !in "?*+-"
    ensures GoOn(d, p, t, pi, s, caps) == if s < |t| && t[s] == p[pi] then GoOn(d, p, t, pi + 1, s + 1, caps)
              else Failed
  {
    assert ItemEnd(p, pi) == Some(pi + 1);
    assert MoveAt(p, t, pi, s, caps) == Item(pi + 1);
  }

  /** A pattern of literal characters is matched by itself. */
  lemma {:induction false} LiteralMatch(d: nat, p: string, t: string, pi: nat, s: nat, caps: seq<Capture>)
    requires pi <= |p| && s <= |t| && forall c <- p :: Literal(c)
    ensures GoOn(d, p, t, pi, s, caps) == if Occurs(t, p[pi..], s) then Found(s + |p| - pi, caps) else Failed
    decreases |p| - pi
  {
    if pi == |p| {
      assert t[s..s + |p[pi..]|] == p[pi..];
    } else {
      assert At(p, pi + 1) !in "?*+-" by {
        if pi + 1 < |p| {
          assert Literal(p[pi + 1]);
        }
      }
      LiteralStep(d, p, t, pi, s, caps);
      if s < |t| && t[s] == p[pi] {
        LiteralMatch(d, p, t, pi + 1, s + 1, caps);
        OccursMore(t, p[pi..], s);
        assert p[pi..][1..] == p[pi + 1..];
      } else {
        if s < |t| {
          OtherStart(t, p[pi..], s);
        }
      }
    }
  }

  lemma OccursMore(t: string, p: string, s: nat)
    requires p != "" && s < |t| && t[s] == p[0]
    ensures Occurs(t, p, s) <==> Occurs(t, p[1..], s + 1)
  {
    if s + |p| <= |t| {
      assert t[s..s + |p|] == [t[s]] + t[s + 1..s + |p|];
      assert p == [p[0]] + p[1..];
    }
  }

  /** The literal start of a pattern is matched by itself. */
  lemma {:induction false} LiteralStart(d: nat, p: string, k: nat, pi: nat)
    requires pi <= k < |p| && (forall j :: 0 <= j < k ==> Literal(p[j])) && !Literal(p[k]) && p[k] !in SPECIALS
    ensures GoOn(d, p, p[..k], pi, pi, []) == GoOn(d, p, p[..k], k, k, [])
    decreases k - pi
  {
    if pi < k {
      LiteralStep(d, p, p[..k], pi, pi, []);
      LiteralStart(d, p, k, pi + 1);
    }
  }

  /** The matcher at one place finds just the pattern itself. */
  ghost predicate LikePlain(p: string, t: string, s: nat) {
    s <= |t| ==> SearchAt(p, t, 0, s) == if Occurs(t, p, s) then Found(s + |p|, []) else Failed
  }

  lemma {:induction false} FirstOther(p: string) returns (k: nat)
    requires NoSpecials(p) && (')' in p || '\0' in p)
    ensures k < |p| && (p[k] == ')' || p[k] == '\0') && forall j :: 0 <= j < k ==> Literal(p[j])
  {
    if p[0] == ')' || p[0] == '\0' {
      k := 0;
    } else {
      k := FirstOther(p[1..]);
      k := k + 1;
      forall j | 0 <= j < k ensures Literal(p[j]) {
        if j > 0 {
          assert p[j] == p[1..][j - 1];
        }
      }
    }
  }

  lemma {:induction false} AllLiteral(p: string)
    requires NoSpecials(p) && ')' !in p && '\0' !in p
    ensures forall c <- p :: Literal(c)
  {
    if p != "" {
      AllLiteral(p[1..]);
      assert p == [p[0]] + p[1..];
    }
  }

  /** For a pattern without special characters, the plain search of string.find does what the matcher
      would do, exactly when the pattern has neither a closing parenthesis nor a zero: the matcher
      raises an error at the first and stops at the second. */
  lemma PlainIsMatch(p: string)
    requires NoSpecials(p)
    ensures (forall t: string, s: nat :: LikePlain(p, t, s)) <==> ')' !in p && '\0' !in p
  {
    if ')' !in p && '\0' !in p {
      AllLiteral(p);
      forall t: string, s: nat ensures LikePlain(p, t, s) {
        if s <= |t| {
          LiteralMatch(1, p, t, 0, s, []);
          assert p[0..] == p;
        }
      }
    } else {
      var k := FirstOther(p);
      LiteralStart(1, p, k, 0);
      assert !LikePlain(p, p[..k], 0);
    }
  }
}
