/** What a Lua pattern means, token by token and with its classes and sets spelled out: a reading of
    patterns that is independent of how the matcher takes them apart. */
module LuaTokens {
  import opened LuaChars
  import opened LuaPattern
  import opened LuaMeaning
  import opened LuaSets

  /** Something that stands for one character of the text. */
  datatype Item = Literal(c: char) | Escape(c: char) | Any | Class(x: char) | Set(neg: bool, es: seq<Elem>)

  datatype Suffix = Once | Optional | Star | Plus | Minus

  datatype Token = Match(item: Item, suffix: Suffix) | Open | Position | Close | Balanced(x: char, y: char)
    | Frontier(neg: bool, es: seq<Elem>) | Back(digit: char)

  function PrintItem(item: Item): (p: string)
    ensures p != ""
  {
    match item
    case Literal(c) => [c]
    case Escape(c) => ['%', c]
    case Any => "."
    case Class(x) => ['%', x]
    case Set(neg, es) => PrintSet(neg, es)
  }

  function PrintSuffix(x: Suffix): string {
    match x
    case Once => ""
    case Optional => "?"
    case Star => "*"
    case Plus => "+"
    case Minus => "-"
  }

  function PrintToken(token: Token): (p: string)
    ensures p != ""
  {
    match token
    case Match(item, suffix) => PrintItem(item) + PrintSuffix(suffix)
    case Open => "("
    case Position => "()"
    case Close => ")"
    case Balanced(x, y) => ['%', 'b', x, y]
    case Frontier(neg, es) => "%f" + PrintSet(neg, es)
    case Back(digit) => ['%', digit]
  }

  /** The tokens, and the dollar sign that asks for the end of the text. */
  function Print(ts: seq<Token>, atEnd: bool): string {
    if ts == [] then if atEnd then "$" else "" else PrintToken(ts[0]) + Print(ts[1..], atEnd)
  }

  predicate ItemOk(item: Item) {
    match item
    case Literal(c) => c !in ".([%)\0"
    case Escape(c) => !ClassLetter(c) && c !in DIGITS && c !in "bf\0"
    case Any => true
    case Class(x) => ClassLetter(x)
    case Set(_, es) => SetOk(es)
  }

  predicate TokenOk(token: Token) {
    match token
    case Match(item, _) => ItemOk(item)
    case Balanced(x, y) => x != '\0' && y != '\0'
    case Frontier(_, es) => SetOk(es)
    case Back(digit) => digit in DIGITS
    case _ => true
  }

  /** The token is not taken for another one together with the text behind it. */
  predicate Apart(token: Token, rest: string) {
    match token
    case Match(item, Once) => At(rest, 0) !in "?*+-" && (item == Literal('$') ==> At(rest, 0) != '\0')
    case Open => At(rest, 0) != ')'
    case _ => true
  }

  predicate WellFormed(ts: seq<Token>, atEnd: bool) {
    ts == [] || (TokenOk(ts[0]) && Apart(ts[0], Print(ts[1..], atEnd)) && WellFormed(ts[1..], atEnd))
  }

  // ----- meaning ------------------------------------------------------------------------------

  ghost predicate ItemHas(item: Item, c: char) {
    match item
    case Literal(x) => c == x
    case Escape(x) => c == x
    case Any => true
    case Class(x) => InClass(c, x)
    case Set(neg, es) => AnyHas(es, c) != neg
  }

  predicate Times(x: Suffix, n: nat) {
    match x
    case Once => n == 1
    case Optional => n <= 1
    case Star => true
    case Plus => n >= 1
    case Minus => true
  }

  ghost predicate Run(item: Item, t: string, s: nat, n: nat) {
    s + n <= |t| && forall j: nat :: s <= j < s + n ==> ItemHas(item, t[j])
  }

  /** From s to e the text starts with x, and as many y as x come for the first time at its end. */
  ghost predicate BalancedText(t: string, s: nat, e: nat, x: char, y: char) {
    && s < |t| && t[s] == x && s + 1 < e <= |t|
    && 1 + Net(t, s + 1, e, x, y) == 0 && StaysOpen(t, s + 1, e, x, y, 1)
  }

  /** The innermost capture that is open. */
  ghost predicate Innermost(caps: seq<Capture>, l: nat) {
    && l < |caps| && caps[l].len == UNFINISHED
    && forall j :: l < j < |caps| ==> caps[j].len != UNFINISHED
  }

  ghost function Closing(caps: seq<Capture>, l: nat, s: nat): seq<Capture>
    requires l < |caps|
  {
    caps[l := Capture(caps[l].init, s - caps[l].init)]
  }

  /** Before s there is none of the characters, and at s there is one. */
  ghost predicate Border(t: string, s: nat, neg: bool, es: seq<Elem>)
    requires s <= |t|
  {
    && AnyHas(es, if s == 0 then '\0' else t[s - 1]) == neg
    && AnyHas(es, if s < |t| then t[s] else '\0') != neg
  }

  /** The text of a capture that is closed, again from s to e. */
  ghost predicate Again(t: string, s: nat, e: nat, caps: seq<Capture>, digit: char) {
    var l := digit as int - '1' as int;
    && 0 <= l < |caps| && caps[l].len >= 0 && caps[l].init + caps[l].len <= |t| && e == s + caps[l].len <= |t|
    && t[s..e] == t[caps[l].init..caps[l].init + caps[l].len]
  }

  /** There is no such capture, or it is still open. */
  predicate NoCapture(caps: seq<Capture>, digit: char) {
    var l := digit as int - '1' as int;
    !(0 <= l < |caps|) || caps[l].len == UNFINISHED
  }

  /** The token is an error with these captures: one too many, none to close, or none to come again. */
  ghost predicate Errs(token: Token, caps: seq<Capture>) {
    match token
    case Open => |caps| >= MAX_CAPTURES
    case Position => |caps| >= MAX_CAPTURES
    case Close => forall l: nat :: !Innermost(caps, l)
    case Back(digit) => NoCapture(caps, digit)
    case _ => false
  }

  /** The token, which is no item and no parenthesis, takes the text from s to e. */
  ghost predicate Takes(token: Token, t: string, s: nat, e: nat, caps: seq<Capture>)
    requires s <= |t|
  {
    match token
    case Balanced(x, y) => BalancedText(t, s, e, x, y)
    case Frontier(neg, es) => e == s && Border(t, s, neg, es)
    case Back(digit) => Again(t, s, e, caps, digit)
    case _ => false
  }

  /** The text from s to e is made up of what the tokens stand for, which turns the captures caps into f. */
  ghost predicate Means(ts: seq<Token>, atEnd: bool, t: string, s: nat, caps: seq<Capture>, e: nat, f: seq<Capture>)
    requires s <= |t|
    decreases |ts|
  {
    if ts == [] then e == s && f == caps && (atEnd ==> s == |t|)
    else
      match ts[0]
      case Match(item, suffix) =>
        exists n: nat :: Times(suffix, n) && Run(item, t, s, n) && Means(ts[1..], atEnd, t, s + n, caps, e, f)
      case Open =>
        |caps| < MAX_CAPTURES && Means(ts[1..], atEnd, t, s, caps + [Capture(s, UNFINISHED)], e, f)
      case Position =>
        |caps| < MAX_CAPTURES && Means(ts[1..], atEnd, t, s, caps + [Capture(s, POSITION)], e, f)
      case Close =>
        exists l: nat :: Innermost(caps, l) && Means(ts[1..], atEnd, t, s, Closing(caps, l, s), e, f)
      case _ =>
        exists s1: nat :: Takes(ts[0], t, s, s1, caps) && s1 <= |t| && Means(ts[1..], atEnd, t, s1, caps, e, f)
  }

  // ----- the matcher's reading ----------------------------------------------------------------

  /** The pattern ends with w, from pi on. */
  predicate Rest(p: string, pi: nat, w: string) { pi <= |p| && p[pi..] == w }

  lemma RestParts(p: string, pi: nat, v: string, w: string)
    requires Rest(p, pi, v + w)
    ensures Stands(p, pi, v) && Rest(p, pi + |v|, w) && At(p, pi + |v|) == At(w, 0)
    ensures forall j: nat :: j < |v| ==> At(p, pi + j) == v[j]
  {
    assert p[pi..pi + |v|] == (v + w)[..|v|] == v;
    assert p[pi + |v|..] == (v + w)[|v|..] == w;
    forall j: nat | j < |v| ensures At(p, pi + j) == v[j] {
      StandsAt(p, pi, v, j);
    }
    if w != "" {
      assert p[pi + |v|..][0] == p[pi + |v|];
    }
  }

  lemma MovesOn(p: string, t: string, pi: nat, s: nat, caps: seq<Capture>)
    requires pi < |p| && s <= |t| && p[pi] !in "()\0" && (p[pi] == '$' ==> At(p, pi + 1) != '\0')
    requires p[pi] == '%' ==> At(p, pi + 1) !in "bf" && !IsDigit(At(p, pi + 1))
    ensures MoveAt(p, t, pi, s, caps) == ItemMove(p, pi)
  {
    hide ItemMove, BalanceMove, FrontierMove, BackMove, OpenCapture;
  }

  lemma EscapeEnd(p: string, pi: nat, x: char)
    requires pi < |p| && p[pi] == '%' && At(p, pi + 1) == x != '\0'
    ensures ItemEnd(p, pi) == Some(pi + 2)
    ensures forall c: char :: Single(c, p, pi, pi + 2) <==> MatchClass(c, x)
  {
    hide MatchClass;
  }

  lemma OneEnd(p: string, pi: nat, item: Item)
    requires pi < |p| && [p[pi]] == PrintItem(item) && ItemOk(item) && (item.Literal? || item.Any?)
    ensures ItemEnd(p, pi) == Some(pi + 1)
    ensures forall c: char :: Single(c, p, pi, pi + 1) <==> ItemHas(item, c)
  {
    hide MatchClass, SetHas, SetEnd;
  }

  lemma SetItem(p: string, pi: nat, neg: bool, es: seq<Elem>)
    requires SetOk(es) && Stands(p, pi, PrintSet(neg, es))
    ensures pi < |p| && p[pi] == '[' && ItemEnd(p, pi) == Some(pi + |PrintSet(neg, es)|)
    ensures forall c: char :: Single(c, p, pi, pi + |PrintSet(neg, es)|) <==> AnyHas(es, c) != neg
  {
    SetAt(p, pi, neg, es);
    hide SetHas, SetEnd, AnyHas, PrintSet, MatchClass, Stands, ItemEnd;
  }

  lemma EscapeOk(x: char)
    requires ItemOk(Escape(x)) || ItemOk(Class(x))
    ensures x !in "bf\0" && !IsDigit(x)
    ensures ItemOk(Class(x)) <==> ClassLetter(x)
  {
    LettersSpelled(x);
  }

  /** The end of an item in the pattern, and what it matches. */
  lemma ItemAt(p: string, pi: nat, item: Item, rest: string)
    requires ItemOk(item) && Rest(p, pi, PrintItem(item) + rest)
    ensures pi < |p| && ItemEnd(p, pi) == Some(pi + |PrintItem(item)|)
    ensures forall c: char :: Single(c, p, pi, pi + |PrintItem(item)|) <==> ItemHas(item, c)
  {
    RestParts(p, pi, PrintItem(item), rest);
    assert At(p, pi) == PrintItem(item)[0];
    hide ItemEnd, Single, MatchClass, AnyHas, InClass, Stands, Rest, PrintSet, SetOk;
    match item
    case Set(neg, es) => SetItem(p, pi, neg, es);
    case Literal(c) => OneEnd(p, pi, item);
    case Any => OneEnd(p, pi, item);
    case Escape(x) =>
      EscapeOk(x);
      assert At(p, pi + 1) == PrintItem(item)[1];
      EscapeEnd(p, pi, x);
      forall c: char ensures MatchClass(c, x) <==> c == x {
        MatchesEscaped(c, x);
      }
    case Class(x) =>
      EscapeOk(x);
      assert At(p, pi + 1) == PrintItem(item)[1];
      EscapeEnd(p, pi, x);
      forall c: char ensures MatchClass(c, x) <==> InClass(c, x) {
        MatchesClass(c, x);
      }
  }

  /** The matcher takes an item for what it stands for. */
  lemma ItemMoves(p: string, t: string, pi: nat, s: nat, caps: seq<Capture>, item: Item, suffix: Suffix, rest: string)
    requires ItemOk(item) && Apart(Match(item, suffix), rest) && s <= |t|
    requires Rest(p, pi, PrintItem(item) + (PrintSuffix(suffix) + rest))
    ensures MoveAt(p, t, pi, s, caps) == LuaPattern.Move.Item(pi + |PrintItem(item)|)
    ensures forall c: char :: Single(c, p, pi, pi + |PrintItem(item)|) <==> ItemHas(item, c)
  {
    ItemAt(p, pi, item, PrintSuffix(suffix) + rest);
    RestParts(p, pi, PrintItem(item), PrintSuffix(suffix) + rest);
    assert At(p, pi) == PrintItem(item)[0];
    hide ItemEnd, Single, MatchClass, AnyHas, InClass, Stands, Rest, SetOk, MoveAt, ItemHas, DIGITS, ClassLetter;
    match item
    case Set(neg, es) => MovesOn(p, t, pi, s, caps);
    case Literal(c) => MovesOn(p, t, pi, s, caps);
    case Any => MovesOn(p, t, pi, s, caps);
    case Escape(x) =>
      EscapeOk(x);
      assert At(p, pi + 1) == PrintItem(item)[1];
      MovesOn(p, t, pi, s, caps);
    case Class(x) =>
      EscapeOk(x);
      assert At(p, pi + 1) == PrintItem(item)[1];
      MovesOn(p, t, pi, s, caps);
  }

  /** What is left of the pattern behind the first token. */
  lemma TokenParts(p: string, pi: nat, ts: seq<Token>, atEnd: bool)
    requires ts != [] && WellFormed(ts, atEnd) && Rest(p, pi, Print(ts, atEnd))
    ensures var w := PrintToken(ts[0]);
            && TokenOk(ts[0]) && Apart(ts[0], Print(ts[1..], atEnd)) && WellFormed(ts[1..], atEnd)
            && Rest(p, pi, w + Print(ts[1..], atEnd)) && Rest(p, pi + |w|, Print(ts[1..], atEnd))
            && At(p, pi + |w|) == At(Print(ts[1..], atEnd), 0)
  {
    hide PrintToken, Apart, TokenOk, Stands;
    RestParts(p, pi, PrintToken(ts[0]), Print(ts[1..], atEnd));
    hide Rest, At;
  }

  lemma RunsRepeat(p: string, t: string, pi: nat, end: nat, s: nat, item: Item)
    requires end > 0 && forall c: char :: Single(c, p, pi, end) <==> ItemHas(item, c)
    ensures forall n: nat :: Repeats(p, t, pi, end, s, n) <==> Run(item, t, s, n)
  {
    hide Single, ItemHas;
  }

  lemma ApartOnce(token: Token, rest: string)
    requires token.Match? && Apart(token, rest) && TokenOk(token)
    ensures ItemOk(token.item) && PrintToken(token) == PrintItem(token.item) + PrintSuffix(token.suffix)
    ensures token.suffix.Once? ==> At(rest, 0) !in "?*+-"
  {
  }

  /** Where the item ends and what stands there. */
  lemma SuffixAt(p: string, pi: nat, item: Item, suffix: Suffix, rest: string)
    requires Rest(p, pi, (PrintItem(item) + PrintSuffix(suffix)) + rest)
    ensures Rest(p, pi, PrintItem(item) + (PrintSuffix(suffix) + rest))
    ensures suffix.Once? ==> At(p, pi + |PrintItem(item)|) == At(rest, 0)
    ensures !suffix.Once? ==> pi + |PrintItem(item)| < |p| && [p[pi + |PrintItem(item)|]] == PrintSuffix(suffix)
    ensures pi + |PrintItem(item)| <= |p|
  {
    hide PrintItem;
    assert (PrintItem(item) + PrintSuffix(suffix)) + rest == PrintItem(item) + (PrintSuffix(suffix) + rest);
    RestParts(p, pi, PrintItem(item), PrintSuffix(suffix) + rest);
    RestParts(p, pi + |PrintItem(item)|, PrintSuffix(suffix), rest);
    if suffix.Once? {
      assert PrintSuffix(suffix) + rest == rest;
    }
  }

  ghost predicate Agree(p: string, pi: nat, ts: seq<Token>, atEnd: bool, t: string, s: nat, caps: seq<Capture>, e: nat,
                        f: seq<Capture>)
    requires pi <= |p|
  {
    s <= |t| ==> (In(p, t, pi, s, caps, e, f) <==> Means(ts, atEnd, t, s, caps, e, f))
  }

  /** An item with its suffix, if the rest of the pattern means what it should. */
  lemma MatchMeans(p: string, pi: nat, ts: seq<Token>, atEnd: bool, t: string, s: nat, caps: seq<Capture>, e: nat,
                   f: seq<Capture>, next: nat)
    requires ts != [] && WellFormed(ts, atEnd) && Rest(p, pi, Print(ts, atEnd)) && ts[0].Match? && s <= |t|
    requires next == pi + |PrintToken(ts[0])| <= |p|
    requires forall s1: nat :: Agree(p, next, ts[1..], atEnd, t, s1, caps, e, f)
    ensures Agree(p, pi, ts, atEnd, t, s, caps, e, f)
  {
    var end := ItemParts(p, pi, ts, atEnd, t, s, caps, next);
    hide *;
    SuffixMeans(p, pi, end, next, ts, atEnd, t, s, caps, e, f);
  }

  /** The item, the suffix and what is behind them, as the matcher reads them. */
  lemma ItemParts(p: string, pi: nat, ts: seq<Token>, atEnd: bool, t: string, s: nat, caps: seq<Capture>, next: nat)
    returns (end: nat)
    requires ts != [] && WellFormed(ts, atEnd) && Rest(p, pi, Print(ts, atEnd)) && ts[0].Match? && s <= |t|
    requires next == pi + |PrintToken(ts[0])| <= |p|
    ensures pi < end <= |p| && next == end + |PrintSuffix(ts[0].suffix)|
    ensures MoveAt(p, t, pi, s, caps) == LuaPattern.Move.Item(end)
    ensures ts[0].suffix.Once? ==> At(p, end) !in "?*+-"
    ensures !ts[0].suffix.Once? ==> end < |p| && [p[end]] == PrintSuffix(ts[0].suffix)
    ensures forall n: nat :: Repeats(p, t, pi, end, s, n) <==> Run(ts[0].item, t, s, n)
  {
    TokenParts(p, pi, ts, atEnd);
    ApartOnce(ts[0], Print(ts[1..], atEnd));
    hide Rest, WellFormed, Print, PrintItem, PrintSuffix, ItemOk, MoveAt, Repeats, Run, Single, ItemHas, Apart, At,
         Stands;
    var item, suffix, rest := ts[0].item, ts[0].suffix, Print(ts[1..], atEnd);
    end := pi + |PrintItem(item)|;
    SuffixAt(p, pi, item, suffix, rest);
    ItemMoves(p, t, pi, s, caps, item, suffix, rest);
    RunsRepeat(p, t, pi, end, s, item);
  }

  lemma SuffixMeans(p: string, pi: nat, end: nat, next: nat, ts: seq<Token>, atEnd: bool, t: string, s: nat,
                    caps: seq<Capture>,
                    e: nat,
                    f: seq<Capture>)
    requires ts != [] && ts[0].Match? && s <= |t| && pi < end <= |p|
    requires MoveAt(p, t, pi, s, caps) == LuaPattern.Move.Item(end)
    requires ts[0].suffix.Once? ==> At(p, end) !in "?*+-"
    requires !ts[0].suffix.Once? ==> end < |p| && [p[end]] == PrintSuffix(ts[0].suffix)
    requires forall n: nat :: Repeats(p, t, pi, end, s, n) <==> Run(ts[0].item, t, s, n)
    requires next == end + |PrintSuffix(ts[0].suffix)| <= |p|
    requires forall s1: nat :: Agree(p, next, ts[1..], atEnd, t, s1, caps, e, f)
    ensures Agree(p, pi, ts, atEnd, t, s, caps, e, f)
  {
    hide MoveAt, Repeats, In;
    if In(p, t, pi, s, caps, e, f) {
      var n := Count(p, t, pi, end, s, caps, e, f, ts[0].suffix);
      assert Agree(p, next, ts[1..], atEnd, t, s + n, caps, e, f);
      assert Run(ts[0].item, t, s, n);
    }
    if Means(ts, atEnd, t, s, caps, e, f) {
      var n: nat :|
        Times(ts[0].suffix, n) && Run(ts[0].item, t, s, n) && Means(ts[1..], atEnd, t, s + n, caps, e, f);
      assert Agree(p, next, ts[1..], atEnd, t, s + n, caps, e, f);
      assert Repeats(p, t, pi, end, s, n);
      Counted(p, t, pi, end, s, caps, e, f, ts[0].suffix, n);
    }
  }

  lemma Counted(p: string, t: string, pi: nat, end: nat, s: nat, caps: seq<Capture>, e: nat, f: seq<Capture>,
                suffix: Suffix, n: nat)
    requires s <= |t| && pi < end <= |p| && MoveAt(p, t, pi, s, caps) == LuaPattern.Move.Item(end)
    requires suffix.Once? ==> At(p, end) !in "?*+-"
    requires !suffix.Once? ==> end < |p| && [p[end]] == PrintSuffix(suffix)
    requires Times(suffix, n) && Repeats(p, t, pi, end, s, n) && s + n <= |t|
    requires In(p, t, end + |PrintSuffix(suffix)|, s + n, caps, e, f)
    ensures In(p, t, pi, s, caps, e, f)
  {
    hide MoveAt, Single;
  }

  /** How often the item is taken in a match. */
  lemma Count(p: string, t: string, pi: nat, end: nat, s: nat, caps: seq<Capture>, e: nat, f: seq<Capture>,
              suffix: Suffix)
    returns (n: nat)
    requires s <= |t| && pi < end <= |p| && In(p, t, pi, s, caps, e, f)
    requires MoveAt(p, t, pi, s, caps) == LuaPattern.Move.Item(end)
    requires suffix.Once? ==> At(p, end) !in "?*+-"
    requires !suffix.Once? ==> end < |p| && [p[end]] == PrintSuffix(suffix)
    ensures Times(suffix, n) && Repeats(p, t, pi, end, s, n) && s + n <= |t|
    ensures In(p, t, end + |PrintSuffix(suffix)|, s + n, caps, e, f)
  {
    hide MoveAt, Single;
    match suffix
    case Once => n := 1;
    case Optional => n := if In(p, t, end + 1, s, caps, e, f) then 0 else 1;
    case Plus =>
      n :| n > 0 && Repeats(p, t, pi, end, s, n) && In(p, t, end + 1, s + n, caps, e, f);
    case _ =>
      n :| Repeats(p, t, pi, end, s, n) && In(p, t, end + 1, s + n, caps, e, f);
  }

  lemma InStep(p: string, t: string, pi: nat, s: nat, caps: seq<Capture>, e: nat, f: seq<Capture>)
    requires pi <= |p| && s <= |t|
    ensures match MoveAt(p, t, pi, s, caps)
            case Jump(pi1, s1) => In(p, t, pi, s, caps, e, f) <==> In(p, t, pi1, s1, caps, e, f)
            case Group(pi1, caps1) => In(p, t, pi, s, caps, e, f) <==> In(p, t, pi1, s, caps1, e, f)
            case Reject => !In(p, t, pi, s, caps, e, f)
            case Bad => !In(p, t, pi, s, caps, e, f)
            case _ => true
  {
    hide MoveAt;
  }

  lemma MeansTakes(ts: seq<Token>, atEnd: bool, t: string, s: nat, caps: seq<Capture>, e: nat, f: seq<Capture>)
    requires ts != [] && s <= |t| && (ts[0].Balanced? || ts[0].Frontier? || ts[0].Back?)
    ensures Means(ts, atEnd, t, s, caps, e, f) <==>
            exists s1: nat :: Takes(ts[0], t, s, s1, caps) && s1 <= |t| && Means(ts[1..], atEnd, t, s1, caps, e, f)
  {
  }

  lemma MeansClose(ts: seq<Token>, atEnd: bool, t: string, s: nat, caps: seq<Capture>, e: nat, f: seq<Capture>)
    requires ts != [] && s <= |t| && ts[0].Close?
    ensures Means(ts, atEnd, t, s, caps, e, f) <==>
            exists l: nat :: Innermost(caps, l) && Means(ts[1..], atEnd, t, s, Closing(caps, l, s), e, f)
  {
  }

  lemma GroupMoves(p: string, t: string, pi: nat, s: nat, caps: seq<Capture>, token: Token, rest: string)
    requires s <= |t| && Rest(p, pi, PrintToken(token) + rest) && Apart(token, rest) && (token.Open? || token.Position?)
    ensures MoveAt(p, t, pi, s, caps) ==
            if |caps| < MAX_CAPTURES
            then Group(pi + |PrintToken(token)|, caps + [Capture(s, if token.Open? then UNFINISHED else POSITION)])
            else Bad
  {
    RestParts(p, pi, PrintToken(token), rest);
    assert At(p, pi) == PrintToken(token)[0];
    if token.Position? {
      assert At(p, pi + 1) == PrintToken(token)[1];
    }
    hide ItemMove, BalanceMove, FrontierMove, BackMove, OpenCapture, Rest, Stands;
  }

  lemma CloseMoves(p: string, t: string, pi: nat, s: nat, caps: seq<Capture>, rest: string)
    requires s <= |t| && Rest(p, pi, ")" + rest)
    ensures match OpenCapture(caps)
            case None => MoveAt(p, t, pi, s, caps) == Bad && forall l: nat :: !Innermost(caps, l)
            case Some(k) =>
              && MoveAt(p, t, pi, s, caps) == Group(pi + 1, Closing(caps, k, s))
              && forall l: nat :: Innermost(caps, l) <==> l == k
  {
    RestParts(p, pi, ")", rest);
    assert At(p, pi) == ")"[0];
    hide ItemMove, BalanceMove, FrontierMove, BackMove, Rest, Stands;
  }

  /** There is at most one end of the balanced text, and the search finds it. */
  lemma BalancedIs(t: string, s: nat, x: char, y: char)
    requires s < |t| && t[s] == x
    ensures match BalanceEnd(t, s + 1, x, y, 1)
            case None => forall e: nat :: !BalancedText(t, s, e, x, y)
            case Some(end) => forall e: nat :: BalancedText(t, s, e, x, y) <==> e == end
  {
    BalanceMeans(t, s + 1, x, y, 1);
    hide Net;
    match BalanceEnd(t, s + 1, x, y, 1)
    case None =>
    case Some(end) =>
      assert BalancedText(t, s, end, x, y);
  }

  lemma BalanceMoves(p: string, t: string, pi: nat, s: nat, caps: seq<Capture>, x: char, y: char, rest: string)
    requires s <= |t| && Rest(p, pi, PrintToken(Balanced(x, y)) + rest) && x != '\0' && y != '\0'
    ensures var m := MoveAt(p, t, pi, s, caps);
            && (m == Reject || (m.Jump? && m.pi == pi + 4))
            && forall e: nat :: BalancedText(t, s, e, x, y) <==> m.Jump? && m.s == e
  {
    var w := PrintToken(Balanced(x, y));
    RestParts(p, pi, w, rest);
    assert At(p, pi) == w[0] && At(p, pi + 1) == w[1] && At(p, pi + 2) == w[2] && At(p, pi + 3) == w[3];
    hide ItemMove, FrontierMove, BackMove, Rest, Stands, OpenCapture, BalanceEnd;
    if s < |t| && t[s] == x {
      BalancedIs(t, s, x, y);
    }
    hide StaysOpen, Net;
  }

  lemma FrontierMoves(p: string, t: string, pi: nat, s: nat, caps: seq<Capture>, neg: bool, es: seq<Elem>, rest: string)
    requires s <= |t| && Rest(p, pi, PrintToken(Frontier(neg, es)) + rest) && SetOk(es)
    ensures MoveAt(p, t, pi, s, caps) ==
            if Border(t, s, neg, es) then Jump(pi + |PrintToken(Frontier(neg, es))|, s) else Reject
  {
    hide ItemMove, BalanceMove, BackMove, Rest, OpenCapture, BalanceEnd, SetHas, PrintToken, ItemEnd, SetOk, AnyHas;
    FrontierAt(p, pi, neg, es, rest);
  }

  lemma FrontierAt(p: string, pi: nat, neg: bool, es: seq<Elem>, rest: string)
    requires Rest(p, pi, PrintToken(Frontier(neg, es)) + rest) && SetOk(es)
    ensures At(p, pi) == '%' && At(p, pi + 1) == 'f' && At(p, pi + 2) == '['
    ensures pi + 2 < |p| && ItemEnd(p, pi + 2) == Some(pi + |PrintToken(Frontier(neg, es))|)
    ensures forall c: char :: SetHas(c, p, pi + 2, pi + |PrintToken(Frontier(neg, es))| - 1) <==> AnyHas(es, c) != neg
  {
    hide SetHas, PrintSet, ItemEnd, SetOk, AnyHas, Rest, Stands;
    var w := PrintToken(Frontier(neg, es));
    RestParts(p, pi, w, rest);
    assert At(p, pi + 0) == w[0] && At(p, pi + 1) == w[1];
    StandsParts(p, pi, "%f", PrintSet(neg, es));
    SetAt(p, pi + 2, neg, es);
    hide At, PrintToken;
  }

  lemma BackMoves(p: string, t: string, pi: nat, s: nat, caps: seq<Capture>, digit: char, rest: string)
    requires s <= |t| && Rest(p, pi, PrintToken(Back(digit)) + rest) && digit in DIGITS
    ensures var m := MoveAt(p, t, pi, s, caps);
            && (m == Reject || m == Bad || (m.Jump? && m.pi == pi + 2)) && (m == Bad <==> NoCapture(caps, digit))
            && forall e: nat :: Again(t, s, e, caps, digit) <==> m.Jump? && m.s == e
  {
    var w := PrintToken(Back(digit));
    RestParts(p, pi, w, rest);
    assert At(p, pi) == w[0] && At(p, pi + 1) == w[1];
    LettersSpelled(digit);
    hide ItemMove, BalanceMove, Rest, Stands, OpenCapture, FrontierMove, DIGITS;
  }

  lemma EndMeans(p: string, pi: nat, atEnd: bool, t: string, s: nat, caps: seq<Capture>, e: nat, f: seq<Capture>)
    requires Rest(p, pi, Print([], atEnd)) && s <= |t|
    ensures Agree(p, pi, [], atEnd, t, s, caps, e, f)
  {
    EndMoves(p, pi, atEnd, t, s, caps);
    hide MoveAt, Rest, Print;
  }

  lemma GroupMeans(p: string, pi: nat, ts: seq<Token>, atEnd: bool, t: string, s: nat, caps: seq<Capture>, e: nat,
                   f: seq<Capture>, next: nat)
    requires ts != [] && Rest(p, pi, PrintToken(ts[0]) + Print(ts[1..], atEnd)) && (ts[0].Open? || ts[0].Position?)
    requires s <= |t| && Apart(ts[0], Print(ts[1..], atEnd)) && next == pi + |PrintToken(ts[0])| <= |p|
    requires forall caps1 :: Agree(p, next, ts[1..], atEnd, t, s, caps1, e, f)
    ensures Agree(p, pi, ts, atEnd, t, s, caps, e, f)
  {
    hide MoveAt, Rest, Print, Apart, PrintToken, In;
    GroupMoves(p, t, pi, s, caps, ts[0], Print(ts[1..], atEnd));
    InStep(p, t, pi, s, caps, e, f);
    assert Agree(p, next, ts[1..], atEnd, t, s, caps + [Capture(s, UNFINISHED)], e, f);
    assert Agree(p, next, ts[1..], atEnd, t, s, caps + [Capture(s, POSITION)], e, f);
  }

  lemma CloseMeans(p: string, pi: nat, ts: seq<Token>, atEnd: bool, t: string, s: nat, caps: seq<Capture>, e: nat,
                   f: seq<Capture>, next: nat)
    requires ts != [] && Rest(p, pi, PrintToken(ts[0]) + Print(ts[1..], atEnd)) && ts[0].Close?
    requires s <= |t| && next == pi + |PrintToken(ts[0])| <= |p|
    requires forall caps1 :: Agree(p, next, ts[1..], atEnd, t, s, caps1, e, f)
    ensures Agree(p, pi, ts, atEnd, t, s, caps, e, f)
  {
    hide MoveAt, Rest, Print, Innermost, OpenCapture, Closing, In, Means;
    CloseMoves(p, t, pi, s, caps, Print(ts[1..], atEnd));
    InStep(p, t, pi, s, caps, e, f);
    MeansClose(ts, atEnd, t, s, caps, e, f);
    if OpenCapture(caps).Some? {
      var l := OpenCapture(caps).value;
      assert Innermost(caps, l);
      assert Agree(p, next, ts[1..], atEnd, t, s, Closing(caps, l, s), e, f);
    }
  }

  /** %b, %f and a capture again. */
  lemma JumpMoves(p: string, t: string, pi: nat, s: nat, caps: seq<Capture>, token: Token, rest: string)
    requires s <= |t| && Rest(p, pi, PrintToken(token) + rest) && TokenOk(token)
    requires token.Balanced? || token.Frontier? || token.Back?
    ensures var m := MoveAt(p, t, pi, s, caps);
            && (m == Reject || m == Bad || (m.Jump? && m.pi == pi + |PrintToken(token)|))
            && (m == Bad <==> token.Back? && NoCapture(caps, token.digit))
            && forall s1: nat :: Takes(token, t, s, s1, caps) <==> m.Jump? && m.s == s1
  {
    hide MoveAt, Rest, BalancedText, Border, Again, SetOk;
    match token
    case Balanced(x, y) => BalanceMoves(p, t, pi, s, caps, x, y, rest);
    case Frontier(neg, es) => FrontierMoves(p, t, pi, s, caps, neg, es, rest);
    case Back(digit) => BackMoves(p, t, pi, s, caps, digit, rest);
  }

  lemma JumpMeans(p: string, pi: nat, ts: seq<Token>, atEnd: bool, t: string, s: nat, caps: seq<Capture>, e: nat,
                  f: seq<Capture>, next: nat)
    requires ts != [] && Rest(p, pi, PrintToken(ts[0]) + Print(ts[1..], atEnd)) && TokenOk(ts[0])
    requires s <= |t| && next == pi + |PrintToken(ts[0])| <= |p| && (ts[0].Balanced? || ts[0].Frontier? || ts[0].Back?)
    requires forall s1: nat :: Agree(p, next, ts[1..], atEnd, t, s1, caps, e, f)
    ensures Agree(p, pi, ts, atEnd, t, s, caps, e, f)
  {
    hide MoveAt, Rest, Print, PrintToken, Takes, In, Means, TokenOk, NoCapture;
    var m := MoveAt(p, t, pi, s, caps);
    JumpMoves(p, t, pi, s, caps, ts[0], Print(ts[1..], atEnd));
    InStep(p, t, pi, s, caps, e, f);
    MeansTakes(ts, atEnd, t, s, caps, e, f);
    if m.Jump? {
      assert Agree(p, next, ts[1..], atEnd, t, m.s, caps, e, f);
      assert Takes(ts[0], t, s, m.s, caps);
    }
  }

  /** The matcher raises an error in a printed pattern just for these tokens. */
  lemma TokenErrs(p: string, pi: nat, ts: seq<Token>, atEnd: bool, t: string, s: nat, caps: seq<Capture>)
    requires WellFormed(ts, atEnd) && Rest(p, pi, Print(ts, atEnd)) && s <= |t|
    ensures MoveAt(p, t, pi, s, caps) == Bad <==> ts != [] && Errs(ts[0], caps)
  {
    hide MoveAt, PrintToken, Apart, TokenOk, Innermost, OpenCapture, NoCapture;
    if ts == [] {
      EndMoves(p, pi, atEnd, t, s, caps);
    } else {
      TokenParts(p, pi, ts, atEnd);
      hide WellFormed, Print, Rest;
      var rest := Print(ts[1..], atEnd);
      match ts[0]
      case Match(_, _) =>
        var end := ItemParts(p, pi, ts, atEnd, t, s, caps, pi + |PrintToken(ts[0])|);
      case Open => GroupMoves(p, t, pi, s, caps, ts[0], rest);
      case Position => GroupMoves(p, t, pi, s, caps, ts[0], rest);
      case Close => CloseErrs(p, t, pi, s, caps, rest);
      case _ => JumpMoves(p, t, pi, s, caps, ts[0], rest);
    }
  }

  lemma CloseErrs(p: string, t: string, pi: nat, s: nat, caps: seq<Capture>, rest: string)
    requires s <= |t| && Rest(p, pi, PrintToken(Close) + rest)
    ensures MoveAt(p, t, pi, s, caps) == Bad <==> Errs(Close, caps)
  {
    CloseMoves(p, t, pi, s, caps, rest);
    hide MoveAt, Innermost, Closing;
    if OpenCapture(caps).Some? {
      assert Innermost(caps, OpenCapture(caps).value);
    }
  }

  lemma EndMoves(p: string, pi: nat, atEnd: bool, t: string, s: nat, caps: seq<Capture>)
    requires Rest(p, pi, Print([], atEnd)) && s <= |t|
    ensures MoveAt(p, t, pi, s, caps) == if atEnd && s < |t| then Reject else Accept
  {
    RestParts(p, pi, Print([], atEnd), "");
    if atEnd {
      assert At(p, pi) == "$"[0];
    }
    hide ItemMove, BalanceMove, Rest, Stands, OpenCapture, FrontierMove, BackMove;
  }

  /** A printed pattern is matched by just the texts that its tokens mean, with the captures they set. */
  lemma {:induction false} TokensMean(p: string, pi: nat, ts: seq<Token>, atEnd: bool, t: string, s: nat,
                                      caps: seq<Capture>, e: nat, f: seq<Capture>)
    requires WellFormed(ts, atEnd) && Rest(p, pi, Print(ts, atEnd)) && s <= |t|
    ensures In(p, t, pi, s, caps, e, f) <==> Means(ts, atEnd, t, s, caps, e, f)
    decreases |ts|
  {
    hide MoveAt, In, Means, WellFormed, PrintToken, Print, Apart, TokenOk;
    if ts == [] {
      EndMeans(p, pi, atEnd, t, s, caps, e, f);
    } else {
      TokenParts(p, pi, ts, atEnd);
      var next := pi + |PrintToken(ts[0])|;
      forall s1: nat, caps1 ensures Agree(p, next, ts[1..], atEnd, t, s1, caps1, e, f) {
        if s1 <= |t| {
          TokensMean(p, next, ts[1..], atEnd, t, s1, caps1, e, f);
        }
      }
      match ts[0]
      case Match(_, _) => MatchMeans(p, pi, ts, atEnd, t, s, caps, e, f, next);
      case Open => GroupMeans(p, pi, ts, atEnd, t, s, caps, e, f, next);
      case Position => GroupMeans(p, pi, ts, atEnd, t, s, caps, e, f, next);
      case Close => CloseMeans(p, pi, ts, atEnd, t, s, caps, e, f, next);
      case _ => JumpMeans(p, pi, ts, atEnd, t, s, caps, e, f, next);
    }
  }
}
