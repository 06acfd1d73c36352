/** The matchers that run along header names and values recognise exactly the keywords. */
module HttpNames {
  import opened HttpTypes
  import opened HttpVisit
  import opened HttpMessage

  /** Header state and index after the bytes of a name. */
  function ScanName(name: seq<byte>): (HeaderState, nat)
    requires GoodName(name)
  {
    var n := |name|;
    if n == 1 then (FirstFieldState(Token(name[0])), 0)
    else
      var (h, i) := ScanName(name[..n - 1]);
      FieldStep(h, i, name[n - 1], Token(name[n - 1]))
  }

  /** The header state a case-folded name, or beginning of a name, leads to. */
  function Expected(n: seq<byte>): HeaderState
    requires |n| > 0
  {
    if n == CONNECTION || n == PROXY_CONNECTION then ConnectionHeader
    else if n == CONTENT_LENGTH then ContentLengthHeader
    else if n == TRANSFER_ENCODING then TransferEncodingHeader
    else if n == UPGRADE then UpgradeHeader
    else if n <= CONNECTION then
      if |n| == 1 then C else if |n| == 2 then CO else if |n| == 3 then CON else MatchingConnection
    else if n <= CONTENT_LENGTH then MatchingContentLength
    else if n <= PROXY_CONNECTION then MatchingProxyConnection
    else if n <= TRANSFER_ENCODING then MatchingTransferEncoding
    else if n <= UPGRADE then MatchingUpgrade
    else General
  }

  predicate Counts(h: HeaderState) {
    h.C? || h.CO? || h.CON? || h.MatchingConnection? || h.MatchingProxyConnection?
    || h.MatchingContentLength? || h.MatchingTransferEncoding? || h.MatchingUpgrade?
  }

  lemma PrefixStep(n: seq<byte>, t: byte, k: seq<byte>)
    ensures n + [t] <= k <==> n <= k && |n| < |k| && k[|n|] == t
    ensures n + [t] == k <==> n <= k && |n| + 1 == |k| && k[|n|] == t
  {
    var m := n + [t];
    if n <= k && |n| < |k| && k[|n|] == t {
      assert forall i :: 0 <= i < |m| ==> m[i] == k[i];
    }
    if m <= k {
      assert m[..|n|] == n && k[..|m|] == m && k[..|n|] == n;
      assert m[|n|] == t;
    }
  }

  /** How n and n + [t] stand to keyword k. */
  predicate Follows(n: seq<byte>, t: byte, k: seq<byte>) {
    && (n + [t] <= k <==> n <= k && |n| < |k| && k[|n|] == t)
    && (n + [t] == k <==> n <= k && |n| + 1 == |k| && k[|n|] == t)
    && (n <= k ==> |n| > 0 ==> |k| > 0 && n[0] == k[0])
    && (n <= k ==> |n| > 3 ==> |k| > 3 && n[3] == k[3])
  }

  predicate FollowsAll(n: seq<byte>, t: byte) {
    Follows(n, t, CONNECTION) && Follows(n, t, PROXY_CONNECTION) && Follows(n, t, CONTENT_LENGTH)
    && Follows(n, t, TRANSFER_ENCODING) && Follows(n, t, UPGRADE)
  }

  lemma FollowsEach(n: seq<byte>, t: byte)
    ensures FollowsAll(n, t)
  {
    PrefixStep(n, t, CONNECTION);
    PrefixStep(n, t, PROXY_CONNECTION);
    PrefixStep(n, t, CONTENT_LENGTH);
    PrefixStep(n, t, TRANSFER_ENCODING);
    PrefixStep(n, t, UPGRADE);
  }

  predicate StepsTo(n: seq<byte>, t: byte, ch: byte, i: nat)
    requires |n| > 0
  {
    var (h, j) := FieldStep(Expected(n), i, ch, t);
    h == Expected(n + [t]) && (Counts(h) ==> j == |n|)
  }

  lemma StepFromGeneral(n: seq<byte>, t: byte, ch: byte, i: nat)
    requires |n| > 0 && Expected(n).General? && FollowsAll(n, t)
    ensures StepsTo(n, t, ch, i)
  {
  }

  lemma StepFromComplete(n: seq<byte>, t: byte, ch: byte, i: nat)
    requires |n| > 0 && FollowsAll(n, t) && ch != SP
    requires n == CONNECTION || n == PROXY_CONNECTION || n == CONTENT_LENGTH || n == TRANSFER_ENCODING || n == UPGRADE
    ensures StepsTo(n, t, ch, i)
  {
    var h := Expected(n);
    assert h.ConnectionHeader? || h.ContentLengthHeader? || h.TransferEncodingHeader? || h.UpgradeHeader?;
    assert Expected(n + [t]).General?;
  }

  lemma StepFromC(n: seq<byte>, t: byte, ch: byte, i: nat)
    requires |n| > 0 && FollowsAll(n, t) && i == |n| - 1
    requires var h := Expected(n); h.C? || h.CO? || h.CON?
    ensures StepsTo(n, t, ch, i)
  {
    assert n <= CONNECTION && n <= CONTENT_LENGTH;
  }

  lemma StepFromConnection(n: seq<byte>, t: byte, ch: byte, i: nat)
    requires |n| > 0 && FollowsAll(n, t) && i == |n| - 1 && Expected(n).MatchingConnection?
    ensures StepsTo(n, t, ch, i)
  {
  }

  lemma StepFromProxy(n: seq<byte>, t: byte, ch: byte, i: nat)
    requires |n| > 0 && FollowsAll(n, t) && i == |n| - 1 && Expected(n).MatchingProxyConnection?
    ensures StepsTo(n, t, ch, i)
  {
  }

  lemma StepFromLength(n: seq<byte>, t: byte, ch: byte, i: nat)
    requires |n| > 0 && FollowsAll(n, t) && i == |n| - 1 && Expected(n).MatchingContentLength?
    ensures StepsTo(n, t, ch, i)
  {
  }

  lemma StepFromEncoding(n: seq<byte>, t: byte, ch: byte, i: nat)
    requires |n| > 0 && FollowsAll(n, t) && i == |n| - 1 && Expected(n).MatchingTransferEncoding?
    ensures StepsTo(n, t, ch, i)
  {
  }

  lemma StepFromUpgrade(n: seq<byte>, t: byte, ch: byte, i: nat)
    requires |n| > 0 && FollowsAll(n, t) && i == |n| - 1 && Expected(n).MatchingUpgrade?
    ensures StepsTo(n, t, ch, i)
  {
  }

  lemma ExpectedStep(n: seq<byte>, t: byte, ch: byte, i: nat)
    requires |n| > 0 && ch != SP && (Counts(Expected(n)) ==> i == |n| - 1)
    ensures StepsTo(n, t, ch, i)
  {
    hide FollowsAll, StepsTo, FieldStep;
    FollowsEach(n, t);
    match Expected(n) {
      case General => StepFromGeneral(n, t, ch, i);
      case MatchingConnection => StepFromConnection(n, t, ch, i);
      case MatchingProxyConnection => StepFromProxy(n, t, ch, i);
      case MatchingContentLength => StepFromLength(n, t, ch, i);
      case MatchingTransferEncoding => StepFromEncoding(n, t, ch, i);
      case MatchingUpgrade => StepFromUpgrade(n, t, ch, i);
      case C => StepFromC(n, t, ch, i);
      case CO => StepFromC(n, t, ch, i);
      case CON => StepFromC(n, t, ch, i);
      case _ => StepFromComplete(n, t, ch, i);
    }
  }

  lemma TokenIsNotSpace(b: byte)
    requires Token(b) != 0
    ensures b != SP
  {
  }

  lemma FirstExact(t: byte)
    ensures FirstFieldState(t) == Expected([t])
  {
    assert [] + [t] == [t];
    FollowsEach([], t);
  }

  /** After a whole name, the matcher knows exactly which kind of header it is. */
  lemma {:induction false} NameExact(name: seq<byte>)
    requires GoodName(name)
    ensures var (h, i) := ScanName(name);
            h == Expected(Tokens(name)) && (Counts(h) ==> i == |name| - 1)
  {
    hide FieldStep, Expected, Token, FirstFieldState;
    var n := |name|;
    if n == 1 {
      assert Tokens(name) == [Token(name[0])];
      FirstExact(Token(name[0]));
    } else {
      var front := name[..n - 1];
      NameExact(front);
      var (h, i) := ScanName(front);
      assert Tokens(name) == Tokens(front) + [Token(name[n - 1])];
      TokenIsNotSpace(name[n - 1]);
      ExpectedStep(Tokens(front), Token(name[n - 1]), name[n - 1], i);
    }
  }

  lemma ExpectedClass(n: seq<byte>)
    requires |n| > 0
    ensures var h := Expected(n);
            FieldState(h)
            && if n == CONNECTION || n == PROXY_CONNECTION then h.ConnectionHeader?
               else if n == CONTENT_LENGTH then h.ContentLengthHeader?
               else if n == TRANSFER_ENCODING then h.TransferEncodingHeader?
               else if n == UPGRADE then h.UpgradeHeader?
               else !h.ConnectionHeader? && !h.ContentLengthHeader? && !h.TransferEncodingHeader? && !h.UpgradeHeader?
  {
  }

  lemma ClassExact(name: seq<byte>)
    requires GoodName(name)
    ensures FieldState(ScanName(name).0)
    ensures var h := ScanName(name).0;
            if NameClass(name).General? then
              !h.ConnectionHeader? && !h.ContentLengthHeader? && !h.TransferEncodingHeader? && !h.UpgradeHeader?
            else h == NameClass(name)
  {
    hide Expected, ScanName, FieldState;
    NameExact(name);
    ExpectedClass(Tokens(name));
  }

  // ----- values -----------------------------------------------------------------------

  function FirstAcc(h: HeaderState, f: Framing, b: byte): ValueAcc {
    match h
    case UpgradeHeader => ValueAcc(General, 0, f.flags + {UpgradeSeen}, f.length, false)
    case TransferEncodingHeader =>
      ValueAcc(if Lower(b) == 99 then MatchingChunked else General, 0, f.flags, f.length, false)
    case ContentLengthHeader =>
      if IsNum(b) then ValueAcc(h, 0, f.flags, b as int - 48, false) else ValueAcc(h, 0, f.flags, f.length, true)
    case ConnectionHeader =>
      ValueAcc(match FirstToken(Lower(b)) case Some(t) => t case None => InToken, 0, f.flags, f.length, false)
    case _ => ValueAcc(General, 0, f.flags, f.length, false)
  }

  /** The bytes of a header value, one after the other. */
  function ScanText(h: HeaderState, f: Framing, value: seq<byte>): ValueAcc
    requires |value| > 0
  {
    var n := |value|;
    if n == 1 then FirstAcc(h, f, value[0]) else ValueStep(ScanText(h, f, value[..n - 1]), value[n - 1])
  }

  lemma {:induction false} GeneralText(h: HeaderState, f: Framing, value: seq<byte>)
    requires |value| > 0
    requires !h.ConnectionHeader? && !h.ContentLengthHeader? && !h.TransferEncodingHeader?
    ensures var a := ScanText(h, f, value);
            a.h.General? && !a.bad && a.length == f.length
            && a.flags == f.flags + (if h.UpgradeHeader? then {UpgradeSeen} else {})
  {
    if |value| > 1 {
      GeneralText(h, f, value[..|value| - 1]);
    }
  }

  lemma DecNoWrap(l: nat, d: nat)
    requires l <= DEC_LIMIT && d <= 9
    ensures (l * 10 + d) % (NO_LENGTH + 1) == l * 10 + d < NO_LENGTH
  {
  }

  lemma LengthStep(a: ValueAcc, b: byte)
    requires a.h.ContentLengthHeader? && (IsNum(b) || b == SP)
    ensures var r := ValueStep(a, b);
            && r.h == a.h && r.flags == a.flags
            && (r.bad <==> a.bad || (b != SP && a.length > DEC_LIMIT))
            && (!r.bad ==> r.length == if b == SP then a.length else a.length * 10 + (b as int - 48))
            && (!r.bad && a.length < NO_LENGTH ==> r.length < NO_LENGTH)
  {
    if a.length <= DEC_LIMIT && IsNum(b) {
      DecNoWrap(a.length, b as int - 48);
    }
  }

  lemma NumFront(s: seq<byte>)
    requires Numeric(s)
    ensures forall b <- s[..|s| - 1] :: IsNum(b) || b == SP
    ensures |s| > 1 ==> Numeric(s[..|s| - 1])
    ensures IsNum(s[|s| - 1]) || s[|s| - 1] == SP
    ensures Num(s) == if s[|s| - 1] == SP then Num(s[..|s| - 1]) else Num(s[..|s| - 1]) * 10 + (s[|s| - 1] as int - 48)
  {
    assert s[|s| - 1] in s;
  }

  /** Content-Length accumulates exactly the written number, spaces skipped, or reports an error;
      the product never wraps around and never reaches the "no length" marker. */
  lemma {:induction false} LengthText(f: Framing, value: seq<byte>)
    requires Numeric(value)
    ensures var a := ScanText(ContentLengthHeader, f, value);
            && a.h.ContentLengthHeader? && a.flags == f.flags
            && (a.bad <==> TooLong(value))
            && (!a.bad ==> a.length == Num(value) < NO_LENGTH)
  {
    var n := |value|;
    var front := value[..n - 1];
    NumFront(value);
    if n == 1 {
      assert front == [];
      assert Num([]) == 0;
    } else {
      hide ValueStep, Num;
      LengthText(f, front);
      LengthStep(ScanText(ContentLengthHeader, f, front), value[n - 1]);
    }
  }

  datatype KeyState = Off | Partial | Whole

  /** How far a value has matched keyword k. */
  function Keyed(value: seq<byte>, k: seq<byte>): KeyState {
    if IsKeyword(value, k) then Whole
    else if LowerAll(value) <= k then Partial
    else Off
  }

  lemma LowerAllStep(value: seq<byte>, b: byte)
    ensures LowerAll(value + [b]) == LowerAll(value) + [Lower(b)]
  {
  }

  lemma KeyedStep(value: seq<byte>, b: byte, k: seq<byte>)
    requires 0 < |value| && 0 < |k|
    ensures Keyed(value, k).Off? ==> Keyed(value + [b], k).Off?
    ensures Keyed(value, k).Whole? ==> Keyed(value + [b], k) == if b == SP then Whole else Off
    ensures Keyed(value, k).Partial? ==>
              |value| < |k|
              && Keyed(value + [b], k) == if Lower(b) != k[|value|] then Off else if |value| + 1 == |k| then Whole
                   else Partial
  {
    var v := value + [b];
    LowerAllStep(value, b);
    PrefixStep(LowerAll(value), Lower(b), k);
    if |k| <= |value| {
      assert v[..|k|] == value[..|k|];
      assert v[|k|..] == value[|k|..] + [b];
      assert LowerAll(value)[..|k|] == LowerAll(value[..|k|]);
      assert forall x :: x in v[|k|..] <==> x in value[|k|..] || x == b;
      assert v[|k|..][|value| - |k|] == b;
      assert !(LowerAll(v) <= k);
      if Keyed(value, k).Whole? {
        if b == SP {
          assert forall x <- v[|k|..] :: x in value[|k|..] || x == b;
          assert IsKeyword(v, k);
        } else {
          assert b in v[|k|..];
        }
      }
    } else {
      assert |k| == |v| ==> v[..|k|] == v && v[|k|..] == [];
    }
  }

  lemma KeyedFirst(b: byte, k: seq<byte>)
    requires 2 <= |k|
    ensures Keyed([b], k) == if Lower(b) == k[0] then Partial else Off
  {
    assert LowerAll([b]) == [Lower(b)];
  }

  /** Transfer-Encoding: the chunked coding is seen exactly when the value is that keyword. */
  lemma {:induction false} EncodingText(f: Framing, value: seq<byte>)
    requires |value| > 0
    ensures var a := ScanText(TransferEncodingHeader, f, value);
            && !a.bad && a.flags == f.flags && a.length == f.length
            && a.h == (match Keyed(value, CHUNKED) case Off => General case Partial => MatchingChunked
                       case Whole => ChunkedValue)
            && (a.h.MatchingChunked? ==> a.index == |value| - 1)
  {
    hide Keyed, IsKeyword, LowerAll, Lower;
    var n := |value|;
    if n == 1 {
      KeyedFirst(value[0], CHUNKED);
      assert value == [value[0]];
    } else {
      EncodingText(f, value[..n - 1]);
      KeyedStep(value[..n - 1], value[n - 1], CHUNKED);
      assert value == value[..n - 1] + [value[n - 1]];
    }
  }

  /** The states of the Connection matcher for a value without commas. */
  function Connected(value: seq<byte>): (h: HeaderState)
    ensures Matching(h) || h.InToken? || h.CloseValue? || h.KeepAliveValue? || h.UpgradeValue?
  {
    if Keyed(value, CLOSE).Whole? then CloseValue
    else if Keyed(value, KEEP_ALIVE).Whole? then KeepAliveValue
    else if Keyed(value, UPGRADE).Whole? then UpgradeValue
    else if Keyed(value, CLOSE).Partial? then MatchingClose
    else if Keyed(value, KEEP_ALIVE).Partial? then MatchingKeepAlive
    else if Keyed(value, UPGRADE).Partial? then MatchingUpgradeToken
    else InToken
  }

  /** The three keywords start differently. */
  predicate Apart(value: seq<byte>) {
    && (Keyed(value, CLOSE) != Off ==> Keyed(value, KEEP_ALIVE).Off? && Keyed(value, UPGRADE).Off?)
    && (Keyed(value, KEEP_ALIVE) != Off ==> Keyed(value, UPGRADE).Off?)
  }

  predicate Matching(h: HeaderState) { h.MatchingClose? || h.MatchingKeepAlive? || h.MatchingUpgradeToken? }

  lemma ConnectedStep(a: ValueAcc, front: seq<byte>, b: byte)
    requires |front| > 0 && b != COMMA && Apart(front)
    requires !a.bad && a.h == Connected(front) && (Matching(a.h) ==> a.index == |front| - 1)
    ensures var r := ValueStep(a, b);
            && !r.bad && r.flags == a.flags && r.length == a.length
            && r.h == Connected(front + [b]) && (Matching(r.h) ==> r.index == |front|)
    ensures Apart(front + [b])
  {
    hide Keyed, IsKeyword, LowerAll, Lower;
    KeyedStep(front, b, CLOSE);
    KeyedStep(front, b, KEEP_ALIVE);
    KeyedStep(front, b, UPGRADE);
  }

  lemma KeyedWhole(value: seq<byte>, k: seq<byte>)
    ensures Keyed(value, k).Whole? <==> IsKeyword(value, k)
  {
  }
}
