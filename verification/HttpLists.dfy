/** Connection lists: which of their elements the parser reads. */
module HttpLists {
  import opened HttpTypes
  import opened HttpVisit
  import opened HttpMessage
  import opened HttpNames

  /** The element that the scanner is in, as far as it reads it. */
  function Said(r: Reading, e: seq<byte>): seq<byte> {
    match r
    case First => e
    case Fresh => Word(e)
    case _ => []
  }

  /** The scanner's state in an element that is read so. */
  function StateIn(r: Reading, e: seq<byte>): HeaderState {
    match r
    case First => Connected(e)
    case Fresh => if Word(e) == [] then TokenStart else if NoWord(e) then General else Connected(Word(e))
    case Swallowed => InToken
    case Lost => General
  }

  ghost predicate Scanned(a: ValueAcc, f: Framing, es: seq<seq<byte>>)
    requires |es| > 0
  {
    var e := es[|es| - 1];
    && !a.bad && a.length == f.length && a.flags == f.flags + ListFlags(es[..|es| - 1])
    && a.h == StateIn(ReadingOf(es), e)
    && (Matching(a.h) ==> a.index == |Said(ReadingOf(es), e)| - 1)
    && (a.h.TokenStart? ==> a.index == 0)
    && (ReadingOf(es).First? ==> e != [])
  }

  lemma KeywordsApart(w: seq<byte>)
    requires w != []
    ensures Apart(w)
    ensures Matching(Connected(w)) <==> Beginning(w)
    ensures TokenFlag(Connected(w)) == KeywordFlags(w)
  {
    hide Lower;
    var l := LowerAll(w);
    assert l[0] == Lower(w[0]);
    forall k | k == CLOSE || k == KEEP_ALIVE || k == UPGRADE
      ensures Keyed(w, k).Partial? <==> l < k
      ensures Keyed(w, k) != Off ==> l[0] == k[0]
    {
      if IsKeyword(w, k) {
        assert LowerAll(w[..|k|])[0] == Lower(w[0]);
      }
      if l <= k && !(l < k) {
        assert w[..|k|] == w && w[|k|..] == [];
      }
    }
  }

  lemma WordMore(e: seq<byte>, b: byte)
    ensures Word(e + [b]) == if Word(e) == [] then (if IsSpace(b) then [] else [b]) else Word(e) + [b]
  {
    if e == [] {
      assert e + [b] == [b] && [b][1..] == [];
    } else if IsSpace(e[0]) {
      assert (e + [b])[1..] == e[1..] + [b];
      WordMore(e[1..], b);
    }
  }

  lemma FirstOfWord(a: ValueAcc, b: byte)
    requires !a.bad && a.h.TokenStart? && a.index == 0 && b != COMMA && !IsSpace(b)
    ensures var r := ValueStep(a, b);
            && !r.bad && r.flags == a.flags && r.length == a.length
            && r.h == (if Token(Lower(b)) == 0 then General else Connected([b])) && (Matching(r.h) ==> r.index == 0)
  {
    hide Keyed;
    KeyedFirst(b, CLOSE);
    KeyedFirst(b, KEEP_ALIVE);
    KeyedFirst(b, UPGRADE);
  }

  lemma SpaceBefore(a: ValueAcc, b: byte)
    requires a.h.TokenStart? && IsSpace(b)
    ensures ValueStep(a, b) == a
  {
  }

  /** A byte of an element. */
  lemma InElement(a: ValueAcc, f: Framing, es: seq<seq<byte>>, es2: seq<seq<byte>>, b: byte)
    requires |es| > 0 && Scanned(a, f, es) && b != COMMA
    requires es2 == es[..|es| - 1] + [es[|es| - 1] + [b]]
    ensures Scanned(ValueStep(a, b), f, es2)
  {
    var e := es[|es| - 1];
    assert es2[..|es| - 1] == es[..|es| - 1];
    SameReading(es, es2);
    var r := ReadingOf(es);
    hide ReadingOf, Connected, Keyed, ValueStep, Word, ListFlags;
    match r
    case First =>
      KeywordsApart(e);
      ConnectedStep(a, e, b);
    case Fresh =>
      WordMore(e, b);
      if Word(e) == [] {
        if IsSpace(b) {
          SpaceBefore(a, b);
        } else {
          FirstOfWord(a, b);
        }
      } else if NoWord(e) {
        StaysGeneral(a, b);
      } else {
        KeywordsApart(Word(e));
        ConnectedStep(a, Word(e), b);
      }
    case Swallowed => StaysInToken(a, b);
    case Lost => StaysGeneral(a, b);
  }

  lemma SameReading(es: seq<seq<byte>>, es2: seq<seq<byte>>)
    requires |es| > 0 && |es2| == |es| && es[..|es| - 1] == es2[..|es| - 1]
    ensures ReadingOf(es) == ReadingOf(es2)
  {
    if |es| > 1 {
      assert es[|es| - 2] == es[..|es| - 1][|es| - 2] && es2[|es| - 2] == es2[..|es| - 1][|es| - 2];
    }
  }

  lemma StaysGeneral(a: ValueAcc, b: byte)
    requires a.h.General?
    ensures ValueStep(a, b) == a
  {
  }

  lemma StaysInToken(a: ValueAcc, b: byte)
    requires a.h.InToken? && b != COMMA
    ensures ValueStep(a, b) == a
  {
  }

  /** A comma, behind a word or not. */
  lemma AtComma(a: ValueAcc)
    requires !a.bad && (a.h.TokenStart? ==> a.index == 0)
    requires Matching(a.h) || a.h.InToken? || a.h.CloseValue? || a.h.KeepAliveValue? || a.h.UpgradeValue?
             || a.h.TokenStart?
    ensures var r := ValueStep(a, COMMA);
            && !r.bad && r.length == a.length
            && r.h == (if Matching(a.h) then InToken else if a.h.TokenStart? then General else TokenStart)
            && (r.h.TokenStart? ==> r.index == 0)
            && r.flags == a.flags + TokenFlag(a.h)
  {
  }

  /** The comma behind an element. */
  lemma BehindElement(a: ValueAcc, f: Framing, es: seq<seq<byte>>, es2: seq<seq<byte>>)
    requires |es| > 0 && Scanned(a, f, es) && es2 == es + [[]]
    ensures Scanned(ValueStep(a, COMMA), f, es2)
  {
    var e := es[|es| - 1];
    assert es2[..|es2| - 1] == es;
    assert ReadingOf(es2) == NextReading(ReadingOf(es), e);
    assert ListFlags(es) == ListFlags(es[..|es| - 1]) + ElementFlags(es);
    var r := ReadingOf(es);
    hide ReadingOf, Connected, Keyed, ValueStep, ListFlags, IsKeyword, Beginning;
    assert Word([]) == [];
    match r
    case First =>
      KeywordsApart(e);
      ConnectedKinds(e);
      AtComma(a);
    case Fresh =>
      if Word(e) == [] {
        NoKeyword();
        AtComma(a);
      } else if NoWord(e) {
        StaysGeneral(a, COMMA);
        NoTokenNoKeyword(Word(e));
      } else {
        KeywordsApart(Word(e));
        ConnectedKinds(Word(e));
        AtComma(a);
      }
    case Swallowed => AtComma(a);
    case Lost => StaysGeneral(a, COMMA);
  }

  function NextReading(r: Reading, e: seq<byte>): Reading {
    match r
    case First => if Beginning(e) then Swallowed else Fresh
    case Fresh => if NoWord(e) then Lost else if Beginning(Word(e)) then Swallowed else Fresh
    case Swallowed => Fresh
    case Lost => Lost
  }

  lemma ConnectedKinds(w: seq<byte>)
    ensures var h := Connected(w); Matching(h) || h.InToken? || h.CloseValue? || h.KeepAliveValue? || h.UpgradeValue?
  {
  }

  lemma NoKeyword()
    ensures KeywordFlags([]) == {}
  {
  }

  lemma NoTokenNoKeyword(w: seq<byte>)
    requires w != [] && Token(Lower(w[0])) == 0
    ensures KeywordFlags(w) == {}
  {
    hide Lower;
    KeyHead(w, CLOSE);
    KeyHead(w, KEEP_ALIVE);
    KeyHead(w, UPGRADE);
  }

  lemma KeyHead(w: seq<byte>, k: seq<byte>)
    requires w != [] && k != []
    ensures IsKeyword(w, k) ==> Lower(w[0]) == k[0]
  {
    if IsKeyword(w, k) {
      assert LowerAll(w[..|k|])[0] == Lower(w[0]);
    }
  }

  lemma FirstByte(f: Framing, b: byte)
    ensures Scanned(FirstAcc(ConnectionHeader, f, b), f, Elements([b]))
  {
    var none: seq<byte> := [];
    assert [b][..0] == none && Elements(none) == [none];
    hide Keyed, Lower;
    if b == COMMA {
      var es := [none] + [none];
      assert Elements([b]) == es;
      assert Beginning(none);
      NoKeyword();
      var nothing: seq<seq<byte>> := [];
      assert es[..1] == [none] && [none][..0] == nothing;
      assert ListFlags([none]) == ListFlags(nothing) + ElementFlags([none]) == {};
    } else {
      assert Elements([b]) == [[b]] by { assert none + [b] == [b]; }
      KeyedFirst(b, CLOSE);
      KeyedFirst(b, KEEP_ALIVE);
      KeyedFirst(b, UPGRADE);
    }
  }

  /** After any bytes of a Connection value, the scanner has read the list that they are. */
  lemma {:induction false} ListScanned(f: Framing, value: seq<byte>)
    requires |value| > 0
    ensures Scanned(ScanText(ConnectionHeader, f, value), f, Elements(value))
  {
    var n := |value|;
    var b := value[n - 1];
    hide Scanned, ReadingOf, ListFlags, ValueStep, FirstAcc;
    if n == 1 {
      assert value == [b];
      FirstByte(f, b);
    } else {
      var front := value[..n - 1];
      ListScanned(f, front);
      var es := Elements(front);
      if b == COMMA {
        BehindElement(ScanText(ConnectionHeader, f, front), f, es, Elements(value));
      } else {
        InElement(ScanText(ConnectionHeader, f, front), f, es, Elements(value), b);
      }
    }
  }

  lemma LastElement(a: ValueAcc, f: Framing, es: seq<seq<byte>>)
    requires |es| > 0 && Scanned(a, f, es)
    ensures !a.bad && a.length == f.length && !a.h.ChunkedValue? && a.flags + TokenFlag(a.h) == f.flags + ListFlags(es)
  {
    var e := es[|es| - 1];
    assert ListFlags(es) == ListFlags(es[..|es| - 1]) + ElementFlags(es);
    hide ReadingOf, Connected, Keyed, ListFlags, IsKeyword;
    match ReadingOf(es)
    case First =>
      KeywordsApart(e);
      ConnectedKinds(e);
    case Fresh =>
      if Word(e) == [] {
        NoKeyword();
      } else if NoWord(e) {
        NoTokenNoKeyword(Word(e));
      } else {
        KeywordsApart(Word(e));
        ConnectedKinds(Word(e));
      }
    case _ =>
  }

  /** A Connection list of any length: the flags are those of the keywords among the elements that
      are read. */
  lemma ListText(f: Framing, value: seq<byte>)
    requires |value| > 0
    ensures var a := ScanText(ConnectionHeader, f, value);
            && !a.bad && a.length == f.length && !a.h.ChunkedValue?
            && a.flags + TokenFlag(a.h) == f.flags + ListFlags(Elements(value))
  {
    ListScanned(f, value);
    hide Scanned, ScanText, ListFlags;
    LastElement(ScanText(ConnectionHeader, f, value), f, Elements(value));
  }

  // ----- what that means for a keyword -------------------------------------------------

  /** Element i is read at all. */
  predicate Heard(es: seq<seq<byte>>, i: nat) {
    i < |es| && (ReadingOf(es[..i + 1]).First? || ReadingOf(es[..i + 1]).Fresh?)
  }

  function SaidAt(es: seq<seq<byte>>, i: nat): seq<byte>
    requires i < |es|
  {
    Said(ReadingOf(es[..i + 1]), es[i])
  }

  predicate Says(es: seq<seq<byte>>, i: nat, k: seq<byte>) {
    Heard(es, i) && IsKeyword(SaidAt(es, i), k)
  }

  /** The flag that stands for a keyword. */
  predicate Stands(k: seq<byte>, flag: Flag) {
    || (k == CLOSE && flag.ConnClose?)
    || (k == KEEP_ALIVE && flag.ConnKeepAlive?)
    || (k == UPGRADE && flag.ConnUpgrade?)
  }

  lemma OneKeyword(w: seq<byte>, k: seq<byte>, flag: Flag)
    requires Stands(k, flag)
    ensures flag in KeywordFlags(w) <==> IsKeyword(w, k)
  {
    if w != [] {
      hide Lower;
      KeyHead(w, CLOSE);
      KeyHead(w, KEEP_ALIVE);
      KeyHead(w, UPGRADE);
    }
  }

  /** A keyword's flag is set exactly when some element that is read is the keyword. */
  lemma {:induction false} ListMeans(es: seq<seq<byte>>, k: seq<byte>, flag: Flag)
    requires Stands(k, flag)
    ensures flag in ListFlags(es) <==> exists i: nat :: Says(es, i, k)
  {
    hide IsKeyword, KeywordFlags;
    if es != [] {
      var n := |es| - 1;
      var front := es[..n];
      ListMeans(front, k, flag);
      assert es[..n + 1] == es;
      OneKeyword(Said(ReadingOf(es), es[n]), k, flag);
      assert flag in ElementFlags(es) <==> Says(es, n, k);
      forall i: nat | i < n ensures Says(es, i, k) <==> Says(front, i, k) {
        assert front[..i + 1] == es[..i + 1];
      }
      if flag in ListFlags(es) && flag !in ElementFlags(es) {
        var i: nat :| Says(front, i, k);
        assert Says(es, i, k);
      }
      if i: nat :| Says(es, i, k) {
        if i < n {
          assert Says(front, i, k);
        }
      }
    }
  }

  /** The element is keyword k in any case, with spaces and tabs around it, as lists are written
      (section 7 of RFC 7230). */
  ghost predicate Names(e: seq<byte>, k: seq<byte>) {
    exists i: nat :: NamesAt(e, k, i)
  }

  predicate NamesAt(e: seq<byte>, k: seq<byte>, i: nat) {
    && i + |k| <= |e| && LowerAll(e[i..i + |k|]) == k
    && (forall b <- e[..i] :: Blank(b)) && forall b <- e[i + |k|..] :: Blank(b)
  }

  predicate Untabbed(e: seq<byte>) { HT !in e && 0 !in e }

  lemma NamesBehind(e: seq<byte>, k: seq<byte>, i: nat)
    requires e != [] && e[0] == SP
    ensures NamesAt(e, k, i + 1) <==> NamesAt(e[1..], k, i)
  {
    var d := e[1..];
    if i + |k| <= |d| {
      assert d[i..i + |k|] == e[i + 1..i + 1 + |k|] && d[i + |k|..] == e[i + 1 + |k|..];
      assert e[..i + 1] == [e[0]] + d[..i];
      assert forall b <- e[..i + 1] :: b == e[0] || b in d[..i];
      assert forall b <- d[..i] :: b in e[..i + 1];
    }
  }

  lemma NamesNotAtSpace(e: seq<byte>, k: seq<byte>)
    requires e != [] && e[0] == SP && k != [] && k[0] != SP
    ensures !NamesAt(e, k, 0)
  {
    if |k| <= |e| {
      assert LowerAll(e[..|k|])[0] == SP;
    }
  }

  lemma BlankBefore(e: seq<byte>, k: seq<byte>, i: nat)
    requires NamesAt(e, k, i)
    ensures i > 0 ==> e != [] && Blank(e[0])
  {
    if i > 0 {
      assert e[..i][0] == e[0] && e[0] in e[..i];
    }
  }

  lemma NamesHere(e: seq<byte>, k: seq<byte>, i: nat)
    requires Untabbed(e) && (e == [] || !IsSpace(e[0])) && NamesAt(e, k, i) && k != []
    ensures i == 0 && IsKeyword(e, k)
  {
    BlankBefore(e, k, i);
    assert e != [] ==> e[0] in e;
    assert e[0..|k|] == e[..|k|];
    forall b | b in e[|k|..] ensures b == SP {
      assert b in e && Blank(b);
    }
  }

  /** Without tabs and zeros, what is read of an element is the keyword that it names. */
  lemma {:induction false} NamesIsWord(e: seq<byte>, k: seq<byte>)
    requires Untabbed(e) && k != [] && k[0] != SP
    ensures Names(e, k) <==> IsKeyword(Word(e), k)
  {
    hide NamesAt;
    if e != [] && IsSpace(e[0]) {
      assert e[0] in e && e[0] == SP;
      NamesIsWord(e[1..], k);
      NamesNotAtSpace(e, k);
      if i: nat :| NamesAt(e, k, i) {
        NamesBehind(e, k, i - 1);
      }
      if j: nat :| NamesAt(e[1..], k, j) {
        NamesBehind(e, k, j);
      }
    } else {
      if i: nat :| NamesAt(e, k, i) {
        NamesHere(e, k, i);
      }
      if IsKeyword(e, k) {
        KeywordHere(e, k);
      }
    }
  }

  lemma KeywordHere(e: seq<byte>, k: seq<byte>)
    requires IsKeyword(e, k)
    ensures NamesAt(e, k, 0)
  {
  }

  lemma {:induction false} ElementBytes(value: seq<byte>, e: seq<byte>, b: byte)
    requires e in Elements(value) && b in e
    ensures b in value
  {
    if value != [] {
      var front := value[..|value| - 1];
      var es := Elements(front);
      if e in es {
        ElementBytes(front, e, b);
      } else if value[|value| - 1] != COMMA {
        assert e == es[|es| - 1] + [value[|value| - 1]];
        if b in es[|es| - 1] {
          ElementBytes(front, es[|es| - 1], b);
        }
      }
    }
  }

  lemma {:induction false} FirstElement(value: seq<byte>)
    ensures value != [] && value[0] != COMMA ==> Elements(value)[0] != [] && Elements(value)[0][0] == value[0]
    ensures value == [] || value[0] == COMMA ==> Elements(value)[0] == []
  {
    if |value| > 1 {
      FirstElement(value[..|value| - 1]);
    } else if |value| == 1 {
      var none: seq<byte> := [];
      assert value[..0] == none;
    }
  }

  /** For a list without tabs and zeros: a keyword is honoured exactly when an element that names it,
      in any case and with any spaces around it, is one that is read. */
  lemma KeywordHonoured(f: Framing, value: seq<byte>, k: seq<byte>, flag: Flag)
    requires |value| > 0 && value[0] != SP && Untabbed(value) && Stands(k, flag) && flag !in f.flags
    ensures var a := ScanText(ConnectionHeader, f, value);
            var es := Elements(value);
            flag in a.flags + TokenFlag(a.h) <==> exists i: nat :: Heard(es, i) && Names(es[i], k)
  {
    ListText(f, value);
    var es := Elements(value);
    ListMeans(es, k, flag);
    FirstElement(value);
    hide ScanText, ListFlags, Elements, IsKeyword, Names, ReadingOf;
    forall i: nat | Heard(es, i) ensures IsKeyword(SaidAt(es, i), k) <==> Names(es[i], k) {
      forall b | b in es[i] ensures b in value {
        ElementBytes(value, es[i], b);
      }
      NamesIsWord(es[i], k);
      if ReadingOf(es[..i + 1]).First? {
        OnlyFirst(es, i);
        assert es[0] == [] || es[0][0] == value[0];
        NoSpaceBefore(es[0]);
      }
    }
    if i: nat :| Says(es, i, k) {
      assert Heard(es, i) && Names(es[i], k);
    }
    if i: nat :| Heard(es, i) && Names(es[i], k) {
      assert Says(es, i, k);
    }
  }

  lemma OnlyFirst(es: seq<seq<byte>>, i: nat)
    requires i < |es| && ReadingOf(es[..i + 1]).First?
    ensures i == 0
  {
  }

  lemma NoSpaceBefore(e: seq<byte>)
    requires e == [] || (e[0] != SP && e[0] != 0)
    ensures Word(e) == e
  {
  }

  lemma {:induction false} ListFlagsAre(es: seq<seq<byte>>)
    ensures ListFlags(es) <= {ConnClose, ConnKeepAlive, ConnUpgrade}
  {
    if es != [] {
      ListFlagsAre(es[..|es| - 1]);
    }
  }

  // ----- lists that are not understood -------------------------------------------------

  lemma {:induction false} ElementsMore(value: seq<byte>, e: seq<byte>)
    requires COMMA !in e
    ensures Elements(value + [COMMA] + e) == Elements(value) + [e]
  {
    var v := value + [COMMA] + e;
    if e == [] {
      assert v[..|v| - 1] == value;
    } else {
      var n := |e| - 1;
      ElementsMore(value, e[..n]);
      assert v[..|v| - 1] == value + [COMMA] + e[..n];
      assert e[..n] + [e[n]] == e;
      assert e[n] in e;
    }
  }

  lemma {:induction false} OneElement(e: seq<byte>)
    requires COMMA !in e
    ensures Elements(e) == [e]
  {
    if e != [] {
      var n := |e| - 1;
      OneElement(e[..n]);
      assert e[..n] + [e[n]] == e && e[n] in e;
    }
  }

  /** The second element is read exactly when the first one is no proper beginning of a keyword. */
  lemma SecondElement(first: seq<byte>, second: seq<byte>)
    ensures Heard([first, second], 1) <==> !Beginning(first)
  {
    var es := [first, second];
    assert es[..2] == es && es[..1] == [first] && ReadingOf([first]).First?;
    assert ReadingOf(es) == if Beginning(first) then Swallowed else Fresh;
  }

  lemma LetterK()
    ensures Beginning([107]) && !Beginning([120])
  {
    var k, x := LowerAll([107]), LowerAll([120]);
    assert k == [107] && x == [120] && KEEP_ALIVE[0] == 107 && |KEEP_ALIVE| == 10;
    assert k <= KEEP_ALIVE;
    assert x[0] == 120 && CLOSE[0] != 120 && KEEP_ALIVE[0] != 120 && UPGRADE[0] != 120;
  }

  /** "k, close" does not say close. */
  lemma CloseBehindPrefix(f: Framing)
    requires ConnClose !in f.flags
    ensures var a := ScanText(ConnectionHeader, f, [107, COMMA, SP] + CLOSE); ConnClose !in a.flags + TokenFlag(a.h)
  {
    var k, close, v := [107 as byte], [SP] + CLOSE, [107, COMMA, SP] + CLOSE;
    assert v == k + [COMMA] + close;
    OneElement(k);
    ElementsMore(k, close);
    LetterK();
    NotClose(k);
    Unheard2(f, v, k, close);
  }

  /** Neither does "x,k,close". */
  lemma CloseBehindTwo(f: Framing)
    requires ConnClose !in f.flags
    ensures var a := ScanText(ConnectionHeader, f, [120, COMMA, 107, COMMA] + CLOSE);
            ConnClose !in a.flags + TokenFlag(a.h)
  {
    var k, x, v := [107 as byte], [120 as byte], [120, COMMA, 107, COMMA] + CLOSE;
    assert v == x + [COMMA] + k + [COMMA] + CLOSE;
    OneElement(x);
    ElementsMore(x, k);
    ElementsMore(x + [COMMA] + k, CLOSE);
    var es := [x, k, CLOSE];
    assert es == [x] + [k] + [CLOSE] && [x, k] == [x] + [k];
    LetterK();
    NotClose(k);
    NotClose(x);
    hide Elements, ScanText, Beginning, IsKeyword, Word, LowerAll;
    SecondElement(x, k);
    ThirdSwallowed(x, k, CLOSE);
    Unheard(f, v, es);
  }

  lemma ThirdSwallowed(x: seq<byte>, k: seq<byte>, d: seq<byte>)
    requires !Beginning(x) && Word(k) == k && Beginning(k) && k != [] && Token(Lower(k[0])) != 0
    requires !IsKeyword(x, CLOSE) && !IsKeyword(k, CLOSE)
    ensures forall i: nat :: !Says([x, k, d], i, CLOSE)
  {
    hide Beginning, IsKeyword, Word, Lower, Token;
    var es := [x, k, d];
    assert es[..1] == [x] && es[..2] == [x, k] && es[..3] == es && [x, k][..1] == [x];
    assert ReadingOf([x]).First? && ReadingOf([x, k]).Fresh? && ReadingOf(es).Swallowed?;
    forall i: nat ensures !Says(es, i, CLOSE) {
      assert i < 3 ==> i == 0 || i == 1 || i == 2;
    }
  }

  /** A tab behind the comma hides the element, too. */
  lemma CloseBehindTab(f: Framing)
    requires ConnClose !in f.flags
    ensures var a := ScanText(ConnectionHeader, f, [120, COMMA, HT] + CLOSE); ConnClose !in a.flags + TokenFlag(a.h)
  {
    var x, tab, v := [120 as byte], [HT] + CLOSE, [120, COMMA, HT] + CLOSE;
    assert v == x + [COMMA] + tab;
    OneElement(x);
    ElementsMore(x, tab);
    NotClose(x);
    NotClose(tab);
    Unheard2(f, v, x, tab);
  }

  lemma NotClose(e: seq<byte>)
    requires e != [] && Lower(e[0]) != SP && (|e| == 1 || Lower(e[0]) != 99)
    ensures Word(e) == e && !IsKeyword(e, CLOSE)
  {
    KeyHead(e, CLOSE);
  }

  lemma Unheard2(f: Framing, value: seq<byte>, e: seq<byte>, d: seq<byte>)
    requires |value| > 0 && Elements(value) == [e, d] && ConnClose !in f.flags
    requires !IsKeyword(e, CLOSE) && (Beginning(e) || !IsKeyword(Word(d), CLOSE))
    ensures var a := ScanText(ConnectionHeader, f, value); ConnClose !in a.flags + TokenFlag(a.h)
  {
    SecondElement(e, d);
    assert [e, d][..1] == [e] && [e, d][..2] == [e, d];
    hide IsKeyword, Beginning, Word;
    Unheard(f, value, [e, d]);
  }

  lemma Unheard(f: Framing, value: seq<byte>, es: seq<seq<byte>>)
    requires |value| > 0 && Elements(value) == es && ConnClose !in f.flags
    requires forall i: nat :: !Says(es, i, CLOSE)
    ensures var a := ScanText(ConnectionHeader, f, value); ConnClose !in a.flags + TokenFlag(a.h)
  {
    ListText(f, value);
    ListMeans(es, CLOSE, ConnClose);
  }

  /** The message framing after a header value: what the parser collected is what it means. */
  lemma TextEffect(h: HeaderState, f: Framing, value: seq<byte>)
    requires |value| > 0 && !h.TokenStart?
    requires h.ContentLengthHeader? ==> Numeric(value) && !TooLong(value)
    ensures var a := ScanText(h, f, value);
            && !a.bad
            && Framing(a.flags + (if a.h.ChunkedValue? then {Chunked} else TokenFlag(a.h)), a.length)
               == ClassEffect(f, h, value, [])
  {
    hide ScanText, Keyed, IsKeyword, Num, ListFlags, Elements;
    match h {
      case ContentLengthHeader => LengthText(f, value);
      case TransferEncodingHeader =>
        EncodingText(f, value);
        KeyedWhole(value, CHUNKED);
      case ConnectionHeader => ListText(f, value);
      case _ => GeneralText(h, f, value);
    }
  }
}
