/** What a single item of a Lua pattern matches: characters, classes and sets. */
module LuaChars {

  datatype Option<T> = None | Some(value: T)

  /** A C string ends with a zero. */
  function At(p: string, k: nat): char {
    if k < |p| then p[k] else '\0'
  }

  predicate IsAlpha(c: char) {
    'a' <= c <= 'z' || 'A' <= c <= 'Z'
  }

  predicate IsDigit(c: char) {
    '0' <= c <= '9'
  }

  /** lj_char_isa, by the lower-case letter of the class. */
  predicate IsA(c: char, kind: char) {
    match kind
    case 'a' => IsAlpha(c)
    case 'c' => c < ' ' || c == '\U{7F}'
    case 'd' => IsDigit(c)
    case 'g' => '!' <= c <= '~'
    case 'l' => 'a' <= c <= 'z'
    case 'p' => '!' <= c <= '~' && !IsAlpha(c) && !IsDigit(c)
    case 's' => '\t' <= c <= '\r' || c == ' '
    case 'u' => 'A' <= c <= 'Z'
    case 'w' => IsAlpha(c) || IsDigit(c)
    case 'x' => IsDigit(c) || 'A' <= c <= 'F' || 'a' <= c <= 'f'
    case _ => false
  }

  predicate IsKind(kind: char) {
    kind in "acdglpsuwx"
  }

  function ToLower(c: char): char {
    if 'A' <= c <= 'Z' then (c as int + 32) as char else c
  }

  /** match_class: %x with the letter x of a class, in upper case for its complement, or any other x. */
  predicate MatchClass(c: char, cl: char) {
    if IsKind(ToLower(cl)) then (if cl >= '`' then IsA(c, ToLower(cl)) else !IsA(c, ToLower(cl)))
    else if cl == 'z' then c == '\0'
    else if cl == 'Z' then c != '\0'
    else cl == c
  }

  /** An upper-case letter stands for the complement of the class, and only then. */
  lemma ComplementClass(c: char, cl: char)
    requires 'A' <= cl <= 'Z'
    ensures (MatchClass(c, cl) <==> !MatchClass(c, ToLower(cl)))
              <==> IsKind(ToLower(cl)) || cl == 'Z' || c == cl || c == ToLower(cl)
  {
  }

  /** The end of a set whose next element starts at k. */
  function SetEnd(p: string, k: nat): (end: Option<nat>)
    ensures end.Some? ==> k + 1 < end.value <= |p|
    decreases |p| - k
  {
    if At(p, k) == '\0' then None
    else
      var next := if p[k] == '%' && At(p, k + 1) != '\0' then k + 2 else k + 1;
      if At(p, next) == ']' then Some(next + 1) else SetEnd(p, next)
  }

  /** Where the elements of the set at k start. */
  function SetStart(p: string, k: nat): nat {
    if At(p, k + 1) == '^' then k + 2 else k + 1
  }

  /** The end of the item at k. */
  function ItemEnd(p: string, k: nat): (end: Option<nat>)
    requires k < |p|
    ensures end.Some? ==> k < end.value <= |p|
  {
    match p[k]
    case '%' => if At(p, k + 1) == '\0' then None else Some(k + 2)
    case '[' => SetEnd(p, SetStart(p, k))
    case _ => Some(k + 1)
  }

  /** classend. */
  method ClassEnd(p: string, start: nat) returns (end: Option<nat>)
    requires start < |p|
    ensures end == ItemEnd(p, start)
  {
    var k := start + 1;
    match p[start]
    case '%' =>
      return if At(p, k) == '\0' then None else Some(k + 1);
    case '[' =>
      if At(p, k) == '^' {
        k := k + 1;
      }
      assert k == SetStart(p, start);
      var more := true;
      while more
        invariant SetStart(p, start) <= k <= |p| + 1 && (!more ==> At(p, k) == ']')
        invariant SetEnd(p, SetStart(p, start)) == if more then SetEnd(p, k) else Some(k + 1)
        decreases more, |p| + 1 - k
      {
        if At(p, k) == '\0' {
          return None;
        }
        k := k + 1;
        if p[k - 1] == '%' && At(p, k) != '\0' {
          k := k + 1;
        }
        more := At(p, k) != ']';
      }
      return Some(k + 1);
    case _ =>
      return Some(k);
  }

  /** The elements of a set from k up to its end. */
  predicate InSet(c: char, p: string, k: nat, end: nat)
    decreases end - k
  {
    if k >= end then false
    else if At(p, k) == '%' then MatchClass(c, At(p, k + 1)) || InSet(c, p, k + 2, end)
    else if At(p, k + 1) == '-' && k + 2 < end then At(p, k) <= c <= At(p, k + 2) || InSet(c, p, k + 3, end)
    else At(p, k) == c || InSet(c, p, k + 1, end)
  }

  /** The set at k, that ends before end. */
  predicate SetHas(c: char, p: string, k: nat, end: nat) {
    if At(p, k + 1) == '^' then !InSet(c, p, k + 2, end) else InSet(c, p, k + 1, end)
  }

  /** matchbracketclass. */
  method MatchBracketClass(c: char, p: string, start: nat, end: nat) returns (b: bool)
    ensures b == SetHas(c, p, start, end)
  {
    var sig, k := true, start;
    if At(p, k + 1) == '^' {
      sig := false;
      k := k + 1;
    }
    ghost var first := k + 1;
    k := k + 1;
    while k < end
      invariant InSet(c, p, first, end) == InSet(c, p, k, end)
    {
      if At(p, k) == '%' {
        k := k + 1;
        if MatchClass(c, At(p, k)) {
          return sig;
        }
      } else if At(p, k + 1) == '-' && k + 2 < end {
        k := k + 2;
        if At(p, k - 2) <= c <= At(p, k) {
          return sig;
        }
      } else if At(p, k) == c {
        return sig;
      }
      k := k + 1;
    }
    b := !sig;
  }

  /** singlematch: the item from k to end. */
  predicate Single(c: char, p: string, k: nat, end: nat)
    requires end > 0
  {
    match At(p, k)
    case '.' => true
    case '%' => MatchClass(c, At(p, k + 1))
    case '[' => SetHas(c, p, k, end - 1)
    case x => x == c
  }

  method SingleMatch(c: char, p: string, k: nat, end: nat) returns (b: bool)
    requires end > 0
    ensures b == Single(c, p, k, end)
  {
    match At(p, k)
    case '.' => b := true;
    case '%' => b := MatchClass(c, At(p, k + 1));
    case '[' => b := MatchBracketClass(c, p, k, end - 1);
    case x => b := x == c;
  }

  /** A set that starts with ^ has exactly the characters that the set without it has not. */
  lemma ComplementSet(c: char, p: string, q: string, k: nat, end: nat)
    requires At(p, k + 1) == '^' && At(q, k + 1) != '^' && forall j: nat :: j > k ==> At(q, j) == At(p, j + 1)
    ensures SetHas(c, p, k, end + 1) <==> !SetHas(c, q, k, end)
  {
    ShiftedSet(c, p, q, k + 1, end);
  }

  lemma {:induction false} ShiftedSet(c: char, p: string, q: string, k: nat, end: nat)
    requires forall j: nat :: j >= k ==> At(q, j) == At(p, j + 1)
    ensures InSet(c, p, k + 1, end + 1) <==> InSet(c, q, k, end)
    decreases end - k
  {
    assert At(q, k) == At(p, k + 1) && At(q, k + 1) == At(p, k + 2) && At(q, k + 2) == At(p, k + 3);
    if k < end {
      ShiftedSet(c, p, q, k + 1, end);
      ShiftedSet(c, p, q, k + 2, end);
      ShiftedSet(c, p, q, k + 3, end);
    }
  }
}
