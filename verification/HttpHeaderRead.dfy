/** Header lines: any printed list of headers is read back, and framing is what it says. */
module HttpHeaderRead {
  import opened HttpTypes
  import opened HttpVisit
  import opened HttpRun
  import opened HttpMessage
  import opened HttpNames
  import opened HttpLists
  import opened HttpFolds
  import opened HttpRoundTrip

  /** The states in which the parser is at the beginning of a header line. A header that has
      been read is only finished when the first byte of the next line is not a blank. */
  predicate AtLine(s: State) { s.HeaderFieldStart? || s.HeaderValueLws? || s.HeaderValueDiscardLws? }

  function Settle(c: Core): Core {
    if c.state.HeaderFieldStart? then c else c.(flags := FinishFlags(c), state := HeaderFieldStart)
  }

  function Settled(c: Core, log: Log): Log {
    if c.state.HeaderValueDiscardLws? then Deliver(log, Value, []) else log
  }

  lemma SettleVisit(c: Core, log: Log, b: byte, client: Client)
    requires Inv(c) && AtLine(c.state) && !c.state.HeaderFieldStart? && !Blank(b)
    ensures Inv(Settle(c))
    ensures var v := VisitByte(c, b, client);
            v.core == Settle(c) && v.next.Again? && Record(c, log, v, b) == Settled(c, log)
  {
  }

  /** The first byte of the next line: the line before is finished, then the byte is read. */
  lemma FirstOfLine(c0: Core, log0: Log, pre: seq<byte>, c: Core, log: Log, b: byte, client: Client)
    requires Reaches(c0, log0, pre, c, log, client) && AtLine(c.state) && !Blank(b)
    ensures Inv(Settle(c))
    ensures var v := VisitByte(Settle(c), b, client);
            v.next.Advance? ==>
              Reaches(c0, log0, pre + [b], v.core, Record(Settle(c), Settled(c, log), v, b), client)
  {
    InvOf(c0, log0, pre, c, log, client);
    hide Run, Inv, VisitByte, Reaches, Record, FinishFlags;
    if c.state.HeaderFieldStart? {
      var v := VisitByte(c, b, client);
      if v.next.Advance? {
        ThenByte(c0, log0, pre, c, log, b, v, client);
      }
    } else {
      SettleVisit(c, log, b, client);
      var v := VisitByte(Settle(c), b, client);
      if v.next.Advance? {
        Byte(Settle(c), Settled(c, log), b, v, client);
        Again1(c, log, b, VisitByte(c, b, client), v.core, Record(Settle(c), Settled(c, log), v, b), client);
        Then(c0, log0, pre, c, log, [b], v.core, Record(Settle(c), Settled(c, log), v, b), client);
      }
    }
  }

  // ----- the name ---------------------------------------------------------------------

  function Named(c: Core, name: seq<byte>): Core
    requires GoodName(name)
  {
    var (h, i) := ScanName(name);
    c.(state := HeaderField, hstate := h, index := i)
  }

  lemma FirstNameByte(c: Core, log: Log, b: byte, client: Client)
    requires Inv(c) && c.state.HeaderFieldStart? && Token(b) != 0
    ensures var v := VisitByte(c, b, client);
            v.next.Advance? && v.core == c.(state := HeaderField, hstate := FirstFieldState(Token(b)), index := 0)
            && Record(c, log, v, b) == Deliver(log, Field, [b])
    ensures !Blank(b)
  {
  }

  lemma NextNameByte(c: Core, log: Log, b: byte, client: Client)
    requires Inv(c) && c.state.HeaderField? && Token(b) != 0
    ensures var v := VisitByte(c, b, client);
            var (h, i) := FieldStep(c.hstate, c.index, b, Token(b));
            v.next.Advance? && v.core == c.(hstate := h, index := i)
            && Record(c, log, v, b) == Deliver(log, Field, [b])
  {
    assert VisitByte(c, b, client) == VisitHeader(c, b, client);
  }

  lemma FirstName(c0: Core, log0: Log, pre: seq<byte>, c: Core, log: Log, name: seq<byte>, client: Client)
    requires Reaches(c0, log0, pre, c, log, client) && AtLine(c.state) && GoodName(name) && |name| == 1
    ensures Reaches(c0, log0, pre + name, Named(Settle(c), name), Deliver(Settled(c, log), Field, name), client)
  {
    InvOf(c0, log0, pre, c, log, client);
    hide Run, Inv, VisitByte, Reaches, Record, Settle, Settled, Deliver, AtLine;
    var b := name[0];
    assert name == [b] && b in name;
    TokenIsNotBlank(b);
    FirstOfLine(c0, log0, pre, c, log, b, client);
    SettledState(c);
    FirstNameByte(Settle(c), Settled(c, log), b, client);
  }

  lemma MoreName(c0: Core, log0: Log, pre: seq<byte>, c: Core, log: Log, front: seq<byte>, b: byte, client: Client)
    requires c.state.HeaderFieldStart? && GoodName(front) && Token(b) != 0 && GoodName(front + [b])
    requires Reaches(c0, log0, pre + front, Named(c, front), Deliver(log, Field, front), client)
    ensures Reaches(c0, log0, pre + front + [b], Named(c, front + [b]), Deliver(log, Field, front + [b]), client)
  {
    var c1 := Named(c, front);
    var log1 := Deliver(log, Field, front);
    InvOf(c0, log0, pre + front, c1, log1, client);
    hide Run, Inv, VisitByte, Reaches, Record, Deliver, FieldStep, FirstFieldState;
    NextNameByte(c1, log1, b, client);
    assert (front + [b])[..|front|] == front;
    ThenByte(c0, log0, pre + front, c1, log1, b, VisitByte(c1, b, client), client);
    DeliverJoins(log, Field, front, [b]);
  }

  lemma {:induction false} NameRead(c0: Core, log0: Log, pre: seq<byte>, c: Core, log: Log, name: seq<byte>,
                                    client: Client)
    requires Reaches(c0, log0, pre, c, log, client) && AtLine(c.state) && GoodName(name)
    ensures Reaches(c0, log0, pre + name, Named(Settle(c), name), Deliver(Settled(c, log), Field, name), client)
  {
    hide Run, Inv, VisitByte, Reaches, Record, Settle, Settled, Deliver, FieldStep, FirstFieldState, AtLine, Named;
    var n := |name|;
    var front := name[..n - 1];
    var b := name[n - 1];
    assert b in name && forall x <- front :: x in name;
    if n == 1 {
      FirstName(c0, log0, pre, c, log, name, client);
    } else {
      NameRead(c0, log0, pre, c, log, front, client);
      SettledState(c);
      assert name == front + [b] && pre + front + [b] == pre + name;
      MoreName(c0, log0, pre, Settle(c), Settled(c, log), front, b, client);
    }
  }

  lemma TokenIsNotBlank(b: byte)
    requires Token(b) != 0
    ensures !Blank(b)
  {
  }

  lemma SettledState(c: Core)
    ensures Settle(c).state.HeaderFieldStart?
  {
  }

  // ----- the value --------------------------------------------------------------------

  function FramingOf(c: Core): Framing { Framing(c.flags, c.contentLength) }

  lemma FirstValueByte(c: Core, log: Log, b: byte, client: Client)
    requires Inv(c) && c.state.HeaderValueDiscardWs? && !c.hstate.TokenStart?
    requires !Blank(b) && b != CR && b != LF && !FirstAcc(c.hstate, FramingOf(c), b).bad
    ensures var v := VisitByte(c, b, client);
            v.next.Advance? && v.core == WithAcc(c.(state := HeaderValue), FirstAcc(c.hstate, FramingOf(c), b))
            && Record(c, log, v, b) == Deliver(log, Value, [b])
  {
    assert VisitByte(c, b, client) == StartValue(c, b);
  }

  lemma NextValueByte(c: Core, log: Log, a: ValueAcc, b: byte, client: Client)
    requires Inv(WithAcc(c, a)) && c.state.HeaderValue? && !a.bad && b != CR && b != LF && !ValueStep(a, b).bad
    ensures var v := VisitByte(WithAcc(c, a), b, client);
            v.next.Advance? && v.core == WithAcc(c, ValueStep(a, b))
            && Record(WithAcc(c, a), log, v, b) == Deliver(log, Value, [b])
  {
    assert Acc(WithAcc(c, a)) == a;
    assert VisitByte(WithAcc(c, a), b, client) == VisitHeader(WithAcc(c, a), b, client);
  }

  lemma BadStays(a: ValueAcc, b: byte)
    ensures a.bad ==> ValueStep(a, b).bad
  {
  }

  lemma FirstValue(c0: Core, log0: Log, pre: seq<byte>, c: Core, log: Log, value: seq<byte>, client: Client)
    requires Reaches(c0, log0, pre, c, log, client) && c.state.HeaderValueDiscardWs? && !c.hstate.TokenStart?
    requires GoodText(value) && |value| == 1 && !ScanText(c.hstate, FramingOf(c), value).bad
    ensures Reaches(c0, log0, pre + value,
                    WithAcc(c.(state := HeaderValue), ScanText(c.hstate, FramingOf(c), value)),
                        Deliver(log, Value, value), client)
  {
    InvOf(c0, log0, pre, c, log, client);
    hide Run, Inv, VisitByte, Reaches, Record, Deliver, ValueStep, FirstAcc, Blank, WithAcc, FramingOf;
    var b := value[0];
    assert value == [b] && b in value;
    FirstValueByte(c, log, b, client);
    ThenByte(c0, log0, pre, c, log, b, VisitByte(c, b, client), client);
  }

  lemma {:induction false} ValueRead(c0: Core, log0: Log, pre: seq<byte>, c: Core, log: Log, value: seq<byte>,
                                     client: Client)
    requires Reaches(c0, log0, pre, c, log, client) && c.state.HeaderValueDiscardWs? && !c.hstate.TokenStart?
    requires GoodText(value) && value != [] && !ScanText(c.hstate, FramingOf(c), value).bad
    ensures Reaches(c0, log0, pre + value,
                    WithAcc(c.(state := HeaderValue), ScanText(c.hstate, FramingOf(c), value)),
                        Deliver(log, Value, value), client)
  {
    hide *;
    var n := |value|;
    var front := value[..n - 1];
    var b := value[n - 1];
    if n == 1 {
      FirstValue(c0, log0, pre, c, log, value, client);
    } else {
      ScanMore(c.hstate, FramingOf(c), value);
      ValueRead(c0, log0, pre, c, log, front, client);
      MoreValue(c0, log0, pre + front, c.(state := HeaderValue), log, front, ScanText(c.hstate, FramingOf(c), front), b,
                client);
      assert value == front + [b] && pre + front + [b] == pre + value;
    }
  }

  lemma MoreValue(c0: Core, log0: Log, pre: seq<byte>, c: Core, log: Log, v: seq<byte>, a: ValueAcc, b: byte,
               client: Client)
    requires Reaches(c0, log0, pre, WithAcc(c, a), Deliver(log, Value, v), client)
    requires c.state.HeaderValue? && !a.bad && b != CR && b != LF && !ValueStep(a, b).bad
    ensures Reaches(c0, log0, pre + [b], WithAcc(c, ValueStep(a, b)), Deliver(log, Value, v + [b]), client)
  {
    InvOf(c0, log0, pre, WithAcc(c, a), Deliver(log, Value, v), client);
    hide Run, Inv, VisitByte, Reaches, Record, Deliver, ValueStep, FirstAcc, WithAcc;
    NextValueByte(c, Deliver(log, Value, v), a, b, client);
    ThenByte(c0, log0, pre, WithAcc(c, a), Deliver(log, Value, v), b, VisitByte(WithAcc(c, a), b, client), client);
    DeliverJoins(log, Value, v, [b]);
  }

  lemma ScanMore(h: HeaderState, f: Framing, value: seq<byte>)
    requires GoodText(value) && |value| > 1 && !ScanText(h, f, value).bad
    ensures var front, b := value[..|value| - 1], value[|value| - 1];
            && GoodText(front) && b != CR && b != LF && !ScanText(h, f, front).bad
            && ScanText(h, f, value) == ValueStep(ScanText(h, f, front), b)
  {
    hide ValueStep, FirstAcc;
    var front, b := value[..|value| - 1], value[|value| - 1];
    assert b in value && forall x <- front :: x in value;
    BadStays(ScanText(h, f, front), b);
  }

  // ----- colon and padding --------------------------------------------------------------

  lemma Colon(c0: Core, log0: Log, pre: seq<byte>, c: Core, log: Log, name: seq<byte>, client: Client)
    requires Reaches(c0, log0, pre, c, Deliver(log, Field, name), client) && c.state.HeaderField?
    ensures Reaches(c0, log0, pre + [COLON], c.(state := HeaderValueDiscardWs), Deliver(log, Field, name), client)
  {
    InvOf(c0, log0, pre, c, Deliver(log, Field, name), client);
    ColonVisit(c, client);
    hide Run, Inv, VisitByte, Reaches, Record, Deliver;
    CloseByte(c0, log0, pre, c, log, Field, name, COLON, HeaderValueDiscardWs, client);
  }

  lemma ColonVisit(c: Core, client: Client)
    requires Inv(c) && c.state.HeaderField?
    ensures VisitByte(c, COLON, client) == Go(c, HeaderValueDiscardWs).(closes := Some(Field))
    ensures !BodyByte(c.state) && OpenKind(HeaderValueDiscardWs).None?
  {
  }

  lemma PadVisits(c: Core, client: Client)
    requires Inv(c)
    ensures c.state.HeaderValueDiscardWs? ==>
              && VisitByte(c, CR, client) == Go(c, HeaderValueDiscardWsAlmostDone)
              && VisitByte(c, LF, client) == Go(c, HeaderValueDiscardLws)
    ensures c.state.HeaderValueDiscardWsAlmostDone? ==> VisitByte(c, LF, client) == Go(c, HeaderValueDiscardLws)
    ensures OpenKind(HeaderValueDiscardWs).None? && OpenKind(HeaderValueDiscardWsAlmostDone).None?
            && OpenKind(HeaderValueDiscardLws).None?
    ensures !BodyByte(HeaderValueDiscardWs) && !BodyByte(HeaderValueDiscardWsAlmostDone)
            && !BodyByte(HeaderValueDiscardLws)
  {
  }

  lemma BlankVisit(c: Core, b: byte, client: Client)
    requires Inv(c) && (c.state.HeaderValueDiscardWs? || c.state.HeaderValueDiscardLws?) && Blank(b)
    ensures VisitByte(c, b, client) == Go(c, HeaderValueDiscardWs)
  {
  }

  /** The line end where no value has begun. */
  lemma EmptyEnd(c0: Core, log0: Log, pre: seq<byte>, c: Core, log: Log, eol: Eol, client: Client)
    requires Reaches(c0, log0, pre, c, log, client) && c.state.HeaderValueDiscardWs?
    ensures Reaches(c0, log0, pre + PrintEol(eol), c.(state := HeaderValueDiscardLws), log, client)
  {
    InvOf(c0, log0, pre, c, log, client);
    PadVisits(c, client);
    if Inv(c.(state := HeaderValueDiscardWsAlmostDone)) {
      PadVisits(c.(state := HeaderValueDiscardWsAlmostDone), client);
    }
    hide Run, VisitByte, Reaches, Record, OpenKind, BodyByte;
    EolRead(c0, log0, pre, c, log, eol, HeaderValueDiscardWsAlmostDone, HeaderValueDiscardLws, client);
  }

  lemma GapRead(c0: Core, log0: Log, pre: seq<byte>, c: Core, log: Log, g: Gap, client: Client)
    requires Reaches(c0, log0, pre, c, log, client) && c.state.HeaderValueDiscardWs? && Blank(g.b)
    ensures Reaches(c0, log0, pre + PrintGap(g), c, log, client)
  {
    InvOf(c0, log0, pre, c, log, client);
    PadVisits(c, client);
    match g
    case Space(b) =>
      BlankVisit(c, b, client);
      hide Run, Inv, VisitByte, Reaches, OpenKind, BodyByte;
      MoveOn(c0, log0, pre, c, log, b, HeaderValueDiscardWs, client);
    case NextLine(eol, b) =>
      var c1, p1 := c.(state := HeaderValueDiscardLws), pre + PrintEol(eol);
      EmptyEnd(c0, log0, pre, c, log, eol, client);
      InvOf(c0, log0, p1, c1, log, client);
      BlankVisit(c1, b, client);
      hide Run, Inv, VisitByte, Reaches, OpenKind, BodyByte;
      MoveOn(c0, log0, p1, c1, log, b, HeaderValueDiscardWs, client);
      assert p1 + [b] == pre + PrintGap(g);
  }

  lemma {:induction false} PadRead(c0: Core, log0: Log, pre: seq<byte>, c: Core, log: Log, pad: seq<Gap>,
                                   client: Client)
    requires Reaches(c0, log0, pre, c, log, client) && c.state.HeaderValueDiscardWs? && GoodPad(pad)
    ensures Reaches(c0, log0, pre + PrintPad(pad), c, log, client)
  {
    hide Reaches, Blank, PrintGap;
    if pad == [] {
      assert pre + PrintPad(pad) == pre;
    } else {
      var front, g := pad[..|pad| - 1], pad[|pad| - 1];
      assert g in pad && forall x <- front :: x in pad;
      PadRead(c0, log0, pre, c, log, front, client);
      GapRead(c0, log0, pre + PrintPad(front), c, log, g, client);
      assert pre + PrintPad(front) + PrintGap(g) == pre + PrintPad(pad);
    }
  }

  // ----- further lines of a value -------------------------------------------------------

  lemma LineEndVisits(c: Core, client: Client)
    requires Inv(c)
    ensures c.state.HeaderValue? ==>
              && VisitByte(c, CR, client) == Go(c, HeaderAlmostDone).(closes := Some(Value))
              && VisitByte(c, LF, client) == Redo(c, HeaderAlmostDone).(closes := Some(Value))
    ensures c.state.HeaderAlmostDone? ==> VisitByte(c, LF, client) == Go(c, HeaderValueLws)
    ensures c.state.HeaderValue? || c.state.HeaderAlmostDone? ==> !BodyByte(c.state)
    ensures c.state.HeaderValue? ==> Inv(c.(state := HeaderAlmostDone))
    ensures OpenKind(HeaderAlmostDone).None? && OpenKind(HeaderValueLws).None?
  {
  }

  lemma TextEnd(c0: Core, log0: Log, pre: seq<byte>, c: Core, log: Log, value: seq<byte>, eol: Eol, client: Client)
    requires Reaches(c0, log0, pre, c, Deliver(log, Value, value), client) && c.state.HeaderValue?
    ensures Reaches(c0, log0, pre + PrintEol(eol), c.(state := HeaderValueLws), Deliver(log, Value, value), client)
  {
    var l, c1 := Deliver(log, Value, value), c.(state := HeaderAlmostDone);
    InvOf(c0, log0, pre, c, l, client);
    hide Run, Inv, VisitByte, Reaches, Record, Deliver, OpenKind, BodyByte;
    LineEndVisits(c, client);
    LineEndVisits(c1, client);
    if eol.CrLf? {
      CloseByte(c0, log0, pre, c, log, Value, value, CR, HeaderAlmostDone, client);
      MoveOn(c0, log0, pre + [CR], c1, l, LF, HeaderValueLws, client);
      assert pre + [CR] + [LF] == pre + PrintEol(eol);
    } else {
      Nothing(c1, l, client);
      MoveOn(c1, l, [], c1, l, LF, HeaderValueLws, client);
      ClosesAgain(c, log, value, VisitByte(c, LF, client));
      assert [] + [LF] == [LF];
      Again1(c, l, LF, VisitByte(c, LF, client), c.(state := HeaderValueLws), l, client);
      Then(c0, log0, pre, c, l, [LF], c.(state := HeaderValueLws), l, client);
    }
  }

  lemma ClosesAgain(c: Core, log: Log, value: seq<byte>, v: Visit)
    requires v == Redo(c, HeaderAlmostDone).(closes := Some(Value)) && !BodyByte(c.state)
    ensures Record(c, Deliver(log, Value, value), v, LF) == Deliver(log, Value, value)
  {
    DeliverJoins(log, Value, value, []);
    assert value + [] == value;
    hide Deliver;
  }

  /** The blank that begins a further line is looked at twice. */
  lemma RefoldAgain(c: Core, log: Log, b: byte, client: Client)
    requires Inv(c) && c.state.HeaderValueLws? && Blank(b)
    ensures var v := VisitByte(c, b, client);
            v.next.Again? && v.core == c.(state := HeaderValueStart) && Inv(v.core) && Record(c, log, v, b) == log
  {
  }

  lemma RefoldStart(c: Core, log: Log, a: ValueAcc, b: byte, client: Client)
    requires Inv(WithAcc(c, a)) && c.state.HeaderValueStart? && Foldable(a) && Blank(b)
    ensures var v := VisitByte(WithAcc(c, a), b, client);
            && v.next.Advance? && v.core == WithAcc(c.(state := HeaderValue), Refold(a))
            && Record(WithAcc(c, a), log, v, b) == Deliver(log, Value, [b])
  {
    assert VisitByte(WithAcc(c, a), b, client) == StartValue(WithAcc(c, a), b);
    hide Inv, VisitByte, Deliver;
  }

  lemma FoldBegins(c0: Core, log0: Log, pre: seq<byte>, c: Core, log: Log, a: ValueAcc, v: seq<byte>, b: byte,
                   client: Client)
    requires Reaches(c0, log0, pre, WithAcc(c, a), Deliver(log, Value, v), client)
    requires c.state.HeaderValueLws? && Foldable(a) && Blank(b)
    ensures Reaches(c0, log0, pre + [b], WithAcc(c.(state := HeaderValue), Refold(a)), Deliver(log, Value, v + [b]),
                    client)
  {
    var c1, l := WithAcc(c, a), Deliver(log, Value, v);
    var c2, c3 := c1.(state := HeaderValueStart), WithAcc(c.(state := HeaderValue), Refold(a));
    InvOf(c0, log0, pre, c1, l, client);
    hide Run, Inv, VisitByte, Reaches, Record, Deliver, Foldable, Refold;
    RefoldAgain(c1, l, b, client);
    assert c2 == WithAcc(c.(state := HeaderValueStart), a);
    RefoldStart(c.(state := HeaderValueStart), l, a, b, client);
    Byte(c2, l, b, VisitByte(c2, b, client), client);
    Again1(c1, l, b, VisitByte(c1, b, client), c3, Deliver(l, Value, [b]), client);
    Then(c0, log0, pre, c1, l, [b], c3, Deliver(l, Value, [b]), client);
    DeliverJoins(log, Value, v, [b]);
  }

  lemma {:induction false} OnRead(c0: Core, log0: Log, pre: seq<byte>, c: Core, log: Log, a: ValueAcc, v: seq<byte>,
                                  text: seq<byte>, client: Client)
    requires Reaches(c0, log0, pre, WithAcc(c, a), Deliver(log, Value, v), client)
    requires c.state.HeaderValue? && Foldable(a) && CR !in text && LF !in text
    ensures Reaches(c0, log0, pre + text, WithAcc(c, ScanOn(a, text)), Deliver(log, Value, v + text), client)
  {
    hide Run, Inv, VisitByte, Reaches, Record, Deliver, ValueStep, FirstAcc, WithAcc, Foldable;
    if text == [] {
      assert pre + text == pre && v + text == v;
    } else {
      var front, b := text[..|text| - 1], text[|text| - 1];
      assert b in text && forall x <- front :: x in text;
      OnRead(c0, log0, pre, c, log, a, v, front, client);
      OnFoldable(a, front);
      StepFoldable(ScanOn(a, front), b);
      NotBad(ScanOn(a, front));
      NotBad(ValueStep(ScanOn(a, front), b));
      assert ScanOn(a, text) == ValueStep(ScanOn(a, front), b);
      MoreValue(c0, log0, pre + front, c, log, v + front, ScanOn(a, front), b, client);
      assert pre + front + [b] == pre + text && v + front + [b] == v + text;
    }
  }

  /** A line end and a further line. */
  lemma FoldRead(c0: Core, log0: Log, pre: seq<byte>, c: Core, log: Log, a: ValueAcc, v: seq<byte>, f: Fold,
                 client: Client)
    requires Reaches(c0, log0, pre, WithAcc(c, a), Deliver(log, Value, v), client)
    requires c.state.HeaderValue? && Foldable(a) && GoodFold(f)
    ensures Reaches(c0, log0, pre + PrintFold(f), WithAcc(c, ScanOn(Refold(a), f.text)),
                    Deliver(log, Value, v + [f.b] + f.text), client)
  {
    hide Run, Inv, VisitByte, Reaches, Record, Deliver, ScanOn, Blank;
    TextEnd(c0, log0, pre, WithAcc(c, a), log, v, f.eol, client);
    var c1, p1 := c.(state := HeaderValueLws), pre + PrintEol(f.eol);
    assert WithAcc(c, a).(state := HeaderValueLws) == WithAcc(c1, a);
    FoldBegins(c0, log0, p1, c1, log, a, v, f.b, client);
    assert c1.(state := HeaderValue) == c;
    OnRead(c0, log0, p1 + [f.b], c, log, Refold(a), v + [f.b], f.text, client);
    assert p1 + [f.b] + f.text == pre + PrintFold(f);
  }

  lemma {:induction false} FoldsRead(c0: Core, log0: Log, pre: seq<byte>, c: Core, log: Log, a: ValueAcc,
                                     value: seq<byte>, fs: seq<Fold>, client: Client)
    requires Reaches(c0, log0, pre, WithAcc(c, a), Deliver(log, Value, value), client)
    requires c.state.HeaderValue? && (fs != [] ==> Foldable(a)) && forall f <- fs :: GoodFold(f)
    ensures Reaches(c0, log0, pre + PrintFolds(fs), WithAcc(c, ScanFolds(a, fs)),
                    Deliver(log, Value, WholeValue(value, fs)), client)
  {
    hide Reaches, Deliver, GoodFold, PrintFold, ScanOn, Refold, WithAcc, Foldable;
    if fs == [] {
      assert pre + PrintFolds(fs) == pre;
    } else {
      var front, f := fs[..|fs| - 1], fs[|fs| - 1];
      assert f in fs && forall x <- front :: x in fs;
      FoldsRead(c0, log0, pre, c, log, a, value, front, client);
      FoldsFoldable(a, front);
      FoldRead(c0, log0, pre + PrintFolds(front), c, log, ScanFolds(a, front), WholeValue(value, front), f, client);
      assert pre + PrintFolds(front) + PrintFold(f) == pre + PrintFolds(fs);
    }
  }

  // ----- one header line ---------------------------------------------------------------

  /** The parser at the end of the line of header h. */
  function AfterHeader(c: Core, h: Header): Core
    requires GoodHeader(h)
  {
    var named := Named(Settle(c), h.name);
    if h.value == [] then named.(state := HeaderValueDiscardLws)
    else WithAcc(named, ScanFolds(ScanText(named.hstate, FramingOf(named), h.value), h.folds)).(state := HeaderValueLws)
  }

  lemma NamedIsField(c: Core, name: seq<byte>)
    requires GoodName(name)
    ensures Named(c, name).state.HeaderField? && FieldState(Named(c, name).hstate)
            && FramingOf(Named(c, name)) == FramingOf(c)
  {
    ClassExact(name);
  }

  /** The values GoodHeader allows are ones the value scanner accepts. */
  lemma TextAccepted(h: Header, f: Framing)
    requires GoodHeader(h) && h.value != []
    ensures var hs := ScanName(h.name).0;
            var a := ScanFolds(ScanText(hs, f, h.value), h.folds);
            && FieldState(hs) && !ScanText(hs, f, h.value).bad && !a.bad
            && (h.folds != [] ==> Foldable(ScanText(hs, f, h.value)))
            && Framing(a.flags + (if a.h.ChunkedValue? then {Chunked} else TokenFlag(a.h)), a.length) == Effect(f, h)
  {
    hide ScanText, ScanName, ScanFolds, IsKeyword, Num, GoodText, FoldedFlags, Foldable;
    ClassExact(h.name);
    var hs := ScanName(h.name).0;
    FoldsEffect(hs, f, h.value, h.folds);
    TextFine(hs, f, h.value);
    if h.folds != [] {
      TextFoldable(hs, f, h.value);
    }
  }

  lemma TextFine(h: HeaderState, f: Framing, value: seq<byte>)
    requires |value| > 0 && !h.TokenStart?
    requires h.ContentLengthHeader? ==> Numeric(value) && !TooLong(value)
    ensures !ScanText(h, f, value).bad
  {
    TextEffect(h, f, value);
  }

  /** What the header means for the message is what the parser has made of it when the next
      line begins; nothing else about the message changes. */
  lemma HeaderEffect(c: Core, h: Header)
    requires GoodHeader(h)
    ensures var s := Settle(AfterHeader(c, h));
            && FramingOf(s) == Effect(FramingOf(Settle(c)), h)
            && s == Settle(c).(hstate := s.hstate, index := s.index, flags := s.flags, contentLength := s.contentLength)
  {
    hide ScanText, ScanName, Effect, GoodText;
    NamedIsField(Settle(c), h.name);
    if h.value != [] {
      TextAccepted(h, FramingOf(Settle(c)));
    } else {
      EmptyEffect(FramingOf(Settle(c)), h);
    }
  }

  lemma EmptyEffect(f: Framing, h: Header)
    requires GoodHeader(h) && h.value == []
    ensures Effect(f, h) == f
  {
  }

  /** A printed header line, with all the lines its value goes on in, is delivered as its name and its
      whole value. */
  lemma HeaderRead(c0: Core, log0: Log, pre: seq<byte>, c: Core, log: Log, h: Header, client: Client)
    requires Reaches(c0, log0, pre, c, log, client) && AtLine(c.state) && GoodHeader(h)
    ensures AtLine(AfterHeader(c, h).state)
    ensures exists log2 ::
              Reaches(c0, log0, pre + PrintHeader(h), AfterHeader(c, h), log2, client)
              && Settled(AfterHeader(c, h), log2)
                 == Deliver(Deliver(Settled(c, log), Field, h.name), Value, WholeValue(h.value, h.folds))
  {
    hide Run, Inv, VisitByte, Reaches, Record, ScanText, ScanName, ScanFolds, Settle, Deliver, FieldState, PrintPad,
         PrintFolds, WholeValue;
    NameRead(c0, log0, pre, c, log, h.name, client);
    var l := Settled(c, log);
    var named := Named(Settle(c), h.name);
    NamedIsField(Settle(c), h.name);
    Colon(c0, log0, pre + h.name, named, l, h.name, client);
    var c1 := named.(state := HeaderValueDiscardWs);
    var l1 := Deliver(l, Field, h.name);
    PadRead(c0, log0, pre + h.name + [COLON], c1, l1, h.pad, client);
    var p1 := pre + h.name + [COLON] + PrintPad(h.pad);
    if h.value == [] {
      EmptyEnd(c0, log0, p1, c1, l1, h.eol, client);
      NoLines(h);
      assert p1 + PrintEol(h.eol) == pre + PrintHeader(h);
    } else {
      NotTokenStart(c1.hstate);
      LinesRead(c0, log0, p1, c1, l1, h, client);
      assert p1 + (h.value + PrintFolds(h.folds)) + PrintEol(h.eol) == pre + PrintHeader(h);
    }
  }

  lemma NoLines(h: Header)
    requires GoodHeader(h) && h.value == []
    ensures h.value + PrintFolds(h.folds) == [] && WholeValue(h.value, h.folds) == []
  {
  }

  /** A value that is not empty, to the end of its last line. */
  lemma LinesRead(c0: Core, log0: Log, pre: seq<byte>, c: Core, log: Log, h: Header, client: Client)
    requires Reaches(c0, log0, pre, c, log, client) && c.state.HeaderValueDiscardWs? && !c.hstate.TokenStart?
    requires GoodHeader(h) && h.value != [] && c.hstate == ScanName(h.name).0
    ensures var a := ScanFolds(ScanText(c.hstate, FramingOf(c), h.value), h.folds);
            Reaches(c0, log0, pre + (h.value + PrintFolds(h.folds)) + PrintEol(h.eol),
                    WithAcc(c.(state := HeaderValueLws), a), Deliver(log, Value, WholeValue(h.value, h.folds)), client)
  {
    hide Run, Inv, VisitByte, Reaches, Record, ScanText, ScanName, ScanFolds, Deliver, PrintFolds, WholeValue, Foldable,
         Effect, GoodFold;
    TextAccepted(h, FramingOf(c));
    var c2, a0 := c.(state := HeaderValue), ScanText(c.hstate, FramingOf(c), h.value);
    ValueRead(c0, log0, pre, c, log, h.value, client);
    FoldsRead(c0, log0, pre + h.value, c2, log, a0, h.value, h.folds, client);
    assert pre + h.value + PrintFolds(h.folds) == pre + (h.value + PrintFolds(h.folds));
    TextEnd(c0, log0, pre + (h.value + PrintFolds(h.folds)), WithAcc(c2, ScanFolds(a0, h.folds)), log,
            WholeValue(h.value, h.folds), h.eol, client);
  }

  lemma NotTokenStart(h: HeaderState)
    requires FieldState(h)
    ensures !h.TokenStart?
  {
  }
}
