/** The classes of a Lua pattern spelled out, and the sets as lists of elements: what the items that
    the matcher reads character by character stand for. */
module LuaSets {
  import opened LuaChars

  const DIGITS: string := "0123456789"
  const HEX_DIGITS: string := "0123456789ABCDEFabcdef"
  const LOWER: string := "abcdefghijklmnopqrstuvwxyz"
  const UPPER: string := "ABCDEFGHIJKLMNOPQRSTUVWXYZ"
  const SPACES: string := " \t\n\U{0B}\U{0C}\r"
  const PUNCTUATION: string := "!\"#$%&'()*+,-./:;<=>?@[\\]^_`{|}~"

  predicate Letter(c: char) { c in LOWER || c in UPPER }

  predicate Alnum(c: char) { Letter(c) || c in DIGITS }

  /** The character is in the class with this lower-case letter. */
  predicate Spelled(c: char, kind: char) {
    match kind
    case 'a' => Letter(c)
    case 'c' => c as int < 32 || c as int == 127
    case 'd' => c in DIGITS
    case 'g' => Alnum(c) || c in PUNCTUATION
    case 'l' => c in LOWER
    case 'p' => c in PUNCTUATION
    case 's' => c in SPACES
    case 'u' => c in UPPER
    case 'w' => Alnum(c)
    case 'x' => c in HEX_DIGITS
    case _ => c == '\0'
  }

  /** Or in the class %x, in the complement if x is a capital letter. */
  predicate InClass(c: char, x: char) {
    if x in UPPER then !Spelled(c, (x as int + 32) as char) else Spelled(c, x)
  }

  predicate ClassLetter(x: char) { x in "acdglpsuwxzACDGLPSUWXZ" }

  lemma LettersSpelled(c: char)
    ensures c in LOWER <==> 'a' <= c <= 'z'
    ensures c in UPPER <==> 'A' <= c <= 'Z'
    ensures c in DIGITS <==> '0' <= c <= '9'
  {
  }

  lemma OthersSpelled(c: char)
    ensures c in HEX_DIGITS <==> '0' <= c <= '9' || 'A' <= c <= 'F' || 'a' <= c <= 'f'
    ensures c in SPACES <==> '\t' <= c <= '\r' || c == ' '
  {
  }

  lemma PunctuationSpelled(c: char)
    ensures c in PUNCTUATION <==> '!' <= c <= '/' || ':' <= c <= '@' || '[' <= c <= '`' || '{' <= c <= '~'
  {
  }

  /** The table of character classes has every character where it belongs. */
  lemma ClassesSpelled(c: char, kind: char)
    requires IsKind(kind)
    ensures IsA(c, kind) <==> Spelled(c, kind)
  {
    LettersSpelled(c);
    OthersSpelled(c);
    PunctuationSpelled(c);
    hide LOWER, UPPER, DIGITS, HEX_DIGITS, SPACES, PUNCTUATION;
  }

  lemma MatchesClass(c: char, x: char)
    requires ClassLetter(x)
    ensures MatchClass(c, x) <==> InClass(c, x)
  {
    LettersSpelled(x);
    KindLetters(x);
    if IsKind(ToLower(x)) {
      ClassesSpelled(c, ToLower(x));
    }
    hide Spelled, IsA, UPPER, LOWER, IsKind, ClassLetter;
  }

  lemma KindLetters(x: char)
    requires ClassLetter(x)
    ensures IsKind(ToLower(x)) || x == 'z' || x == 'Z'
    ensures 'A' <= x <= 'Z' || 'a' <= x <= 'z'
    ensures !IsKind('z') && forall c: char :: Spelled(c, 'z') <==> c == '\0'
  {
  }

  /** After %, a character that names no class stands for itself. */
  lemma MatchesEscaped(c: char, x: char)
    requires !ClassLetter(x)
    ensures MatchClass(c, x) <==> c == x
  {
  }

  // ----- sets ---------------------------------------------------------------------------------

  /** What can be in a set: a character, an escaped one, a range, a class. */
  datatype Elem = Char(c: char) | Escaped(c: char) | Range(lo: char, hi: char) | ClassOf(x: char)

  predicate Raw(c: char) { c !in "]^%-\0" }

  predicate ElemOk(e: Elem) {
    match e
    case Char(c) => Raw(c)
    case Escaped(c) => !ClassLetter(c) && c != '\0'
    case Range(lo, hi) => Raw(lo) && Raw(hi)
    case ClassOf(x) => ClassLetter(x)
  }

  /** A closing bracket can come first and a dash last. */
  predicate SetOk(es: seq<Elem>) {
    && es != []
    && forall i :: 0 <= i < |es| ==>
         ElemOk(es[i]) || (i == 0 && es[i] == Char(']')) || (i == |es| - 1 && es[i] == Char('-'))
  }

  lemma NotEmpty(es: seq<Elem>)
    requires SetOk(es)
    ensures es != []
  {
  }

  predicate ElemHas(e: Elem, c: char) {
    match e
    case Char(x) => c == x
    case Escaped(x) => c == x
    case Range(lo, hi) => lo <= c <= hi
    case ClassOf(x) => InClass(c, x)
  }

  function PrintElem(e: Elem): (p: string)
    ensures p != ""
  {
    match e
    case Char(c) => [c]
    case Escaped(c) => ['%', c]
    case Range(lo, hi) => [lo, '-', hi]
    case ClassOf(x) => ['%', x]
  }

  function PrintElems(es: seq<Elem>): string {
    if es == [] then "" else PrintElem(es[0]) + PrintElems(es[1..])
  }

  ghost predicate AnyHas(es: seq<Elem>, c: char) { exists e <- es :: ElemHas(e, c) }

  function PrintSet(neg: bool, es: seq<Elem>): string {
    (if neg then "[^" else "[") + (PrintElems(es) + "]")
  }

  /** The text w stands in p from k on. */
  predicate Stands(p: string, k: nat, w: string) { k + |w| <= |p| && p[k..k + |w|] == w }

  lemma StandsParts(p: string, k: nat, v: string, w: string)
    ensures Stands(p, k, v + w) <==> Stands(p, k, v) && Stands(p, k + |v|, w)
  {
    if k + |v + w| <= |p| {
      assert p[k..k + |v + w|] == p[k..k + |v|] + p[k + |v|..k + |v| + |w|];
      if p[k..k + |v + w|] == v + w {
        assert (v + w)[..|v|] == v && (v + w)[|v|..] == w;
      }
    }
  }

  lemma StandsAt(p: string, k: nat, w: string, j: nat)
    requires Stands(p, k, w) && j < |w|
    ensures At(p, k + j) == w[j]
  {
    assert p[k..k + |w|][j] == p[k + j];
  }

  /** The characters of an element, in the text of a pattern. */
  ghost predicate Written(p: string, k: nat, e: Elem) {
    match e
    case Char(c) => At(p, k) == c
    case Escaped(c) => At(p, k) == '%' && At(p, k + 1) == c
    case Range(lo, hi) => At(p, k) == lo && At(p, k + 1) == '-' && At(p, k + 2) == hi
    case ClassOf(x) => At(p, k) == '%' && At(p, k + 1) == x
  }

  lemma ElemWritten(p: string, k: nat, e: Elem)
    requires Stands(p, k, PrintElem(e))
    ensures Written(p, k, e)
  {
    var w := PrintElem(e);
    StandsAt(p, k, w, 0);
    if |w| > 1 {
      StandsAt(p, k, w, 1);
    }
    if |w| > 2 {
      StandsAt(p, k, w, 2);
    }
  }

  predicate InSetOk(e: Elem) { ElemOk(e) || e == Char(']') || e == Char('-') }

  lemma ElemInSet(c: char, p: string, k: nat, e: Elem, end: nat)
    requires InSetOk(e) && Written(p, k, e) && k + |PrintElem(e)| <= end
    requires e.Char? ==> At(p, k + 1) != '-' || k + 2 >= end
    ensures InSet(c, p, k, end) <==> ElemHas(e, c) || InSet(c, p, k + |PrintElem(e)|, end)
  {
    match e
    case Escaped(x) => MatchesEscaped(c, x);
    case ClassOf(x) => MatchesClass(c, x);
    case _ =>
  }

  /** One step of the search for the end of a set. */
  lemma SetEndStep(p: string, k: nat)
    requires k < |p| && p[k] != '\0'
    ensures p[k] != '%' ==> SetEnd(p, k) == if At(p, k + 1) == ']' then Some(k + 2) else SetEnd(p, k + 1)
    ensures p[k] == '%' && At(p, k + 1) != '\0' ==>
              SetEnd(p, k) == if At(p, k + 2) == ']' then Some(k + 3) else SetEnd(p, k + 2)
  {
  }

  lemma ElemSetEnd(p: string, k: nat, e: Elem)
    requires InSetOk(e) && Written(p, k, e) && k + |PrintElem(e)| <= |p|
    ensures SetEnd(p, k) == if At(p, k + |PrintElem(e)|) == ']' then Some(k + |PrintElem(e)| + 1)
              else SetEnd(p, k + |PrintElem(e)|)
  {
    hide SetEnd;
    SetEndStep(p, k);
    if e.Range? {
      SetEndStep(p, k + 1);
      SetEndStep(p, k + 2);
    }
  }

  lemma {:induction false} AnyHasMore(es: seq<Elem>, c: char)
    requires es != []
    ensures AnyHas(es, c) <==> ElemHas(es[0], c) || AnyHas(es[1..], c)
  {
    assert es == [es[0]] + es[1..];
  }

  lemma FirstWritten(p: string, k: nat, es: seq<Elem>)
    requires SetOk(es) && Stands(p, k, PrintElems(es) + "]")
    ensures Written(p, k, es[0]) && Stands(p, k + |PrintElem(es[0])|, PrintElems(es[1..]) + "]")
    ensures |PrintElems(es)| == |PrintElem(es[0])| + |PrintElems(es[1..])|
    ensures InSetOk(es[0]) && At(p, k) != '^' && At(p, k) != '\0' && (es[0] != Char(']') ==> At(p, k) != ']')
    ensures At(p, k) == '-' ==> es == [Char('-')]
  {
    var w := PrintElem(es[0]);
    assert PrintElems(es) + "]" == w + (PrintElems(es[1..]) + "]");
    StandsParts(p, k, w, PrintElems(es[1..]) + "]");
    ElemWritten(p, k, es[0]);
  }

  lemma RestOk(es: seq<Elem>)
    requires SetOk(es) && |es| > 1
    ensures SetOk(es[1..]) && es[1..] != [] && es[1..][0] != Char(']')
  {
  }

  lemma DashLength(es: seq<Elem>)
    requires es == [Char('-')]
    ensures |PrintElems(es)| == 1
  {
    assert es[1..] == [];
  }

  /** The first element, and what stands behind it. */
  lemma Behind(p: string, k: nat, es: seq<Elem>)
    requires SetOk(es) && es != [] && Stands(p, k, PrintElems(es) + "]")
    ensures var at := k + |PrintElem(es[0])|;
            && Written(p, k, es[0]) && InSetOk(es[0]) && Stands(p, at, PrintElems(es[1..]) + "]") && at < |p|
            && |PrintElems(es)| == |PrintElem(es[0])| + |PrintElems(es[1..])|
            && (|es| > 1 ==> SetOk(es[1..]) && At(p, at) != ']' && (At(p, at) == '-' ==> |PrintElems(es[1..])| == 1))
            && (|es| == 1 ==> At(p, at) == ']' && PrintElems(es[1..]) == "")
  {
    hide SetOk, PrintElem, Written, InSetOk;
    FirstWritten(p, k, es);
    if |es| > 1 {
      hide PrintElems;
      RestOk(es);
      FirstWritten(p, k + |PrintElem(es[0])|, es[1..]);
      if es[1..] == [Char('-')] {
        DashLength(es[1..]);
      }
    } else {
      assert PrintElems(es[1..]) + "]" == "]";
      StandsAt(p, k + |PrintElem(es[0])|, "]", 0);
    }
  }

  lemma CharLength(e: Elem)
    requires e.Char?
    ensures |PrintElem(e)| == 1
  {
  }

  lemma {:induction false} ElemsEnd(p: string, k: nat, es: seq<Elem>)
    requires SetOk(es) && Stands(p, k, PrintElems(es) + "]")
    ensures SetEnd(p, k) == Some(k + |PrintElems(es)| + 1)
    decreases |es|
  {
    hide *;
    NotEmpty(es);
    Behind(p, k, es);
    ElemSetEnd(p, k, es[0]);
    if |es| > 1 {
      ElemsEnd(p, k + |PrintElem(es[0])|, es[1..]);
    }
  }

  lemma {:induction false} ElemsIn(c: char, p: string, k: nat, es: seq<Elem>)
    requires SetOk(es) && Stands(p, k, PrintElems(es) + "]")
    ensures InSet(c, p, k, k + |PrintElems(es)|) <==> AnyHas(es, c)
    decreases |es|
  {
    hide *;
    NotEmpty(es);
    Behind(p, k, es);
    if es[0].Char? {
      CharLength(es[0]);
    }
    var end := k + |PrintElems(es)|;
    ElemInSet(c, p, k, es[0], end);
    AnyHasMore(es, c);
    if |es| > 1 {
      ElemsIn(c, p, k + |PrintElem(es[0])|, es[1..]);
    } else {
      NothingIn(c, p, end, es[1..]);
    }
  }

  lemma NothingIn(c: char, p: string, end: nat, es: seq<Elem>)
    requires es == []
    ensures !InSet(c, p, end, end) && !AnyHas(es, c)
  {
  }

  /** The bracket of a printed set and what follows it. */
  lemma SetWritten(p: string, k: nat, neg: bool, es: seq<Elem>)
    requires SetOk(es) && Stands(p, k, PrintSet(neg, es))
    ensures k < |p| && p[k] == '['
    ensures Stands(p, SetStart(p, k), PrintElems(es) + "]") && (At(p, k + 1) == '^' <==> neg)
    ensures k + |PrintSet(neg, es)| == SetStart(p, k) + |PrintElems(es)| + 1
  {
    var open := if neg then "[^" else "[";
    StandsAt(p, k, PrintSet(neg, es), 0);
    StandsParts(p, k, open, PrintElems(es) + "]");
    FirstWritten(p, k + |open|, es);
    if neg {
      StandsAt(p, k, open, 1);
    }
  }

  /** A printed set is taken for the whole set, and has the characters of its elements, or all others. */
  lemma SetAt(p: string, k: nat, neg: bool, es: seq<Elem>)
    requires SetOk(es) && Stands(p, k, PrintSet(neg, es))
    ensures k < |p| && p[k] == '[' && ItemEnd(p, k) == Some(k + |PrintSet(neg, es)|)
    ensures forall c: char :: SetHas(c, p, k, k + |PrintSet(neg, es)| - 1) <==> AnyHas(es, c) != neg
  {
    hide SetEnd, InSet, PrintElems, PrintSet, AnyHas, Stands, SetOk;
    SetWritten(p, k, neg, es);
    var from := SetStart(p, k);
    ElemsEnd(p, from, es);
    forall c: char
      ensures InSet(c, p, from, from + |PrintElems(es)|) <==> AnyHas(es, c) {
      ElemsIn(c, p, from, es);
    }
  }
}
