/** The end of the header section and the three kinds of body. */
module HttpBodyRead {
  import opened HttpTypes
  import opened HttpVisit
  import opened HttpRun
  import opened HttpMessage
  import opened HttpRoundTrip
  import opened HttpHeaderRead
  import HttpParser

  // ----- header lists -----------------------------------------------------------------

  function AfterHeaders(c: Core, hs: seq<Header>): Core
    requires forall h <- hs :: GoodHeader(h)
  {
    if hs == [] then c else AfterHeader(AfterHeaders(c, hs[..|hs| - 1]), hs[|hs| - 1])
  }

  lemma {:induction false} HeadersEffect(c: Core, hs: seq<Header>)
    requires forall h <- hs :: GoodHeader(h)
    ensures var s := Settle(AfterHeaders(c, hs));
            && FramingOf(s) == Effects(FramingOf(Settle(c)), hs)
            && s == Settle(c).(hstate := s.hstate, index := s.index, flags := s.flags, contentLength := s.contentLength)
  {
    hide AfterHeader, Effect, GoodHeader, Settle;
    if hs != [] {
      HeadersEffect(c, hs[..|hs| - 1]);
      HeaderEffect(AfterHeaders(c, hs[..|hs| - 1]), hs[|hs| - 1]);
    }
  }

  lemma {:induction false} HeadersRead(c0: Core, log0: Log, pre: seq<byte>, c: Core, log: Log, hs: seq<Header>,
                                       client: Client)
    requires Reaches(c0, log0, pre, c, log, client) && AtLine(c.state) && forall h <- hs :: GoodHeader(h)
    ensures AtLine(AfterHeaders(c, hs).state)
    ensures exists log2 ::
              Reaches(c0, log0, pre + PrintHeaders(hs), AfterHeaders(c, hs), log2, client)
              && Settled(AfterHeaders(c, hs), log2) == HeaderLog(Settled(c, log), hs)
  {
    hide Reaches, AfterHeader, PrintHeader, Settled, Deliver, AtLine, GoodHeader;
    if hs == [] {
      assert pre + PrintHeaders(hs) == pre;
      assert Reaches(c0, log0, pre + PrintHeaders(hs), AfterHeaders(c, hs), log, client);
    } else {
      var front := hs[..|hs| - 1];
      var h := hs[|hs| - 1];
      HeadersRead(c0, log0, pre, c, log, front, client);
      var c1 := AfterHeaders(c, front);
      var log1 :| Reaches(c0, log0, pre + PrintHeaders(front), c1, log1, client)
                  && Settled(c1, log1) == HeaderLog(Settled(c, log), front);
      HeaderRead(c0, log0, pre + PrintHeaders(front), c1, log1, h, client);
      assert pre + PrintHeaders(front) + PrintHeader(h) == pre + PrintHeaders(hs);
    }
  }

  // ----- the empty line ---------------------------------------------------------------

  /** The parser after the empty line that ends the headers of a message, when no upgrade is
      asked for: c is the settled parser before it. */
  function Headed(c: Core, client: Client): Core {
    var c1 := c.(state := HeadersDone, upgrade := false);
    if Chunked in c.flags then c1.(state := ChunkSizeStart)
    else if c.contentLength == 0 then Completed(c1, client)
    else if c.contentLength != NO_LENGTH then c1.(state := BodyIdentity)
    else if !MessageNeedsEof(c) then Completed(c1, client)
    else c1.(state := BodyIdentityEof)
  }

  function Completed(c: Core, client: Client): Core { AfterComplete(c.(state := NewMessage(c)), client) }

  predicate HasBody(c: Core) {
    Chunked in c.flags || (c.contentLength != 0 && (c.contentLength != NO_LENGTH || MessageNeedsEof(c)))
  }

  function HeadedLog(c: Core, log: Log): Log {
    if HasBody(c) then log + [Notified(HeadersComplete)]
    else log + [Notified(HeadersComplete)] + [Notified(MessageComplete)]
  }

  predicate NoUpgrade(c: Core) { !(UpgradeSeen in c.flags && ConnUpgrade in c.flags) && !c.verb.Connect? }

  lemma DoneVisit(c: Core, log: Log, client: Client)
    requires Inv(c) && c.state.HeadersDone? && !c.upgrade && c.kind.Response?
    ensures var v := VisitByte(c, LF, client);
            v.next.Advance? && v.core == Headed(c, client)
            && Record(c, log, v, LF) == if HasBody(c) then log else log + [Notified(MessageComplete)]
  {
    assert VisitByte(c, LF, client) == VisitHeader(c, LF, client);
  }

  lemma AlmostDoneVisit(c: Core, log: Log, client: Client)
    requires Inv(c) && c.state.HeadersAlmostDone? && NoUpgrade(c) && Trailing !in c.flags
    ensures var v := VisitByte(c, LF, client);
            v.next.Again? && v.core == c.(state := HeadersDone, upgrade := false) && Inv(v.core)
            && Record(c, log, v, LF) == log + [Notified(HeadersComplete)]
  {
  }

  lemma TrailerVisit(c: Core, log: Log, client: Client)
    requires Inv(c) && c.state.HeadersAlmostDone? && Trailing in c.flags
    ensures var v := VisitByte(c, LF, client);
            v.next.Advance? && v.core == Completed(c, client)
            && Record(c, log, v, LF) == log + [Notified(MessageComplete)]
  {
  }

  lemma HeadedSame(c: Core, client: Client)
    requires c.state.HeadersAlmostDone?
    ensures var c1 := c.(state := HeadersDone, upgrade := false);
            Headed(c1, client) == Headed(c, client) && HasBody(c1) == HasBody(c)
  {
  }

  lemma EmptyLineCR(c0: Core, log0: Log, pre: seq<byte>, c: Core, log: Log, client: Client)
    requires Reaches(c0, log0, pre, c, log, client) && AtLine(c.state)
    ensures Reaches(c0, log0, pre + [CR], Settle(c).(state := HeadersAlmostDone), Settled(c, log), client)
  {
    FirstOfLine(c0, log0, pre, c, log, CR, client);
    CRVisit(Settle(c), Settled(c, log), client);
  }

  lemma CRVisit(c: Core, log: Log, client: Client)
    requires Inv(c) && c.state.HeaderFieldStart?
    ensures var v := VisitByte(c, CR, client);
            v.next.Advance? && v.core == c.(state := HeadersAlmostDone) && Record(c, log, v, CR) == log
  {
  }

  /** A bare line feed at the beginning of a line is looked at again as the end of an empty one. */
  lemma LFVisit(c: Core, log: Log, client: Client)
    requires Inv(c) && c.state.HeaderFieldStart?
    ensures var v := VisitByte(c, LF, client);
            v.next.Again? && v.core == c.(state := HeadersAlmostDone) && Record(c, log, v, LF) == log
    ensures !Blank(LF)
  {
  }

  lemma EmptyLineLF(c: Core, log: Log, c2: Core, log2: Log, client: Client)
    requires Inv(c) && AtLine(c.state)
    requires Reaches(Settle(c).(state := HeadersAlmostDone), Settled(c, log), [LF], c2, log2, client)
    ensures Reaches(c, log, [LF], c2, log2, client)
  {
    var s, l := Settle(c), Settled(c, log);
    SettledState(c);
    if c.state.HeaderFieldStart? {
      LFVisit(c, log, client);
      hide Run, Inv, VisitByte, Reaches, Record;
      Again1(c, log, LF, VisitByte(c, LF, client), c2, log2, client);
    } else {
      hide Run, Inv, VisitByte, Reaches, Record, Settle, Settled, Blank;
      SettleLF(c, log, client);
      LFVisit(s, l, client);
      Again1(s, l, LF, VisitByte(s, LF, client), c2, log2, client);
      Again1(c, log, LF, VisitByte(c, LF, client), c2, log2, client);
    }
  }

  lemma SettleLF(c: Core, log: Log, client: Client)
    requires Inv(c) && AtLine(c.state) && !c.state.HeaderFieldStart?
    ensures Inv(Settle(c)) && Settle(c).state.HeaderFieldStart?
    ensures var v := VisitByte(c, LF, client);
            v.core == Settle(c) && v.next.Again? && Record(c, log, v, LF) == Settled(c, log)
  {
    SettleVisit(c, log, LF, client);
  }

  /** An empty line in either form leads to where its line feed does. */
  lemma EmptyLine(c0: Core, log0: Log, pre: seq<byte>, c: Core, log: Log, eol: Eol, c2: Core, log2: Log, client: Client)
    requires Reaches(c0, log0, pre, c, log, client) && AtLine(c.state)
    requires Inv(Settle(c).(state := HeadersAlmostDone)) ==>
               Reaches(Settle(c).(state := HeadersAlmostDone), Settled(c, log), [LF], c2, log2, client)
    ensures Reaches(c0, log0, pre + PrintEol(eol), c2, log2, client)
  {
    InvOf(c0, log0, pre, c, log, client);
    var c1, l1 := Settle(c).(state := HeadersAlmostDone), Settled(c, log);
    EmptyLineCR(c0, log0, pre, c, log, client);
    InvOf(c0, log0, pre + [CR], c1, l1, client);
    hide Run, Inv, Reaches, Settle, Settled;
    if eol.CrLf? {
      Then(c0, log0, pre + [CR], c1, l1, [LF], c2, log2, client);
      assert pre + [CR] + [LF] == pre + PrintEol(eol);
    } else {
      EmptyLineLF(c, log, c2, log2, client);
      Then(c0, log0, pre, c, log, [LF], c2, log2, client);
    }
  }

  lemma HeadEnd(c0: Core, log0: Log, pre: seq<byte>, c: Core, log: Log, eol: Eol, client: Client)
    requires Reaches(c0, log0, pre, c, log, client) && AtLine(c.state) && c.kind.Response?
    requires NoUpgrade(Settle(c)) && Trailing !in Settle(c).flags
    ensures Reaches(c0, log0, pre + PrintEol(eol), Headed(Settle(c), client), HeadedLog(Settle(c), Settled(c, log)),
                    client)
  {
    var c1 := Settle(c).(state := HeadersAlmostDone);
    var l1 := Settled(c, log);
    assert Headed(c1, client) == Headed(Settle(c), client) && HasBody(c1) == HasBody(Settle(c)) && NoUpgrade(c1);
    hide *;
    if Inv(c1) {
      LastLF(c1, l1, client);
    }
    HeadedLogSame(c1, Settle(c), l1);
    EmptyLine(c0, log0, pre, c, log, eol, Headed(c1, client), HeadedLog(c1, l1), client);
  }

  lemma HeadedLogSame(c: Core, c1: Core, log: Log)
    requires HasBody(c) == HasBody(c1)
    ensures HeadedLog(c, log) == HeadedLog(c1, log)
  {
  }

  lemma LastLF(c: Core, log: Log, client: Client)
    requires Inv(c) && c.state.HeadersAlmostDone? && c.kind.Response? && NoUpgrade(c) && Trailing !in c.flags
    ensures Reaches(c, log, [LF], Headed(c, client), HeadedLog(c, log), client)
  {
    var c2 := c.(state := HeadersDone, upgrade := false);
    var l2 := log + [Notified(HeadersComplete)];
    HeadedSame(c, client);
    hide Run, Inv, VisitByte, Reaches, Record, Headed, HasBody, FinishFlags;
    AlmostDoneVisit(c, log, client);
    DoneVisit(c2, l2, client);
    var v := VisitByte(c2, LF, client);
    Byte(c2, l2, LF, v, client);
    Again1(c, log, LF, VisitByte(c, LF, client), v.core, Record(c2, l2, v, LF), client);
  }

  lemma TrailerEnd(c0: Core, log0: Log, pre: seq<byte>, c: Core, log: Log, eol: Eol, client: Client)
    requires Reaches(c0, log0, pre, c, log, client) && AtLine(c.state) && Trailing in Settle(c).flags
    ensures var c1 := Settle(c).(state := HeadersAlmostDone);
            Reaches(c0, log0, pre + PrintEol(eol), Completed(c1, client),
                    Settled(c, log) + [Notified(MessageComplete)], client)
  {
    hide Run, Inv, VisitByte, Reaches, Record, FinishFlags, Completed;
    var c1 := Settle(c).(state := HeadersAlmostDone);
    var l1 := Settled(c, log);
    if Inv(c1) {
      TrailerVisit(c1, l1, client);
      Byte(c1, l1, LF, VisitByte(c1, LF, client), client);
    }
    EmptyLine(c0, log0, pre, c, log, eol, Completed(c1, client), l1 + [Notified(MessageComplete)], client);
  }

  // ----- a body of known length, or until the connection closes ------------------------

  lemma DoneMessage(c: Core, log: Log, b: byte, client: Client)
    requires Inv(c) && c.state.MessageDone?
    ensures var v := VisitByte(c, b, client);
            v.next.Advance? && v.core == Completed(c, client)
                && Record(c, log, v, b) == log + [Notified(MessageComplete)]
  {
  }

  lemma IdentityRead(c0: Core, log0: Log, pre: seq<byte>, c: Core, log: Log, body: seq<byte>, client: Client)
    requires Reaches(c0, log0, pre, c, log, client) && c.state.BodyIdentity? && |body| == c.contentLength
    ensures Reaches(c0, log0, pre + body, Completed(c.(contentLength := 0, state := MessageDone), client),
                    Deliver(log, Body, body) + [Notified(MessageComplete)], client)
  {
    InvOf(c0, log0, pre, c, log, client);
    hide *;
    IdentityAll(c, log, body, client);
    Then(c0, log0, pre, c, log, body, Completed(c.(contentLength := 0, state := MessageDone), client),
         Deliver(log, Body, body) + [Notified(MessageComplete)], client);
  }

  lemma IdentityAll(c: Core, log: Log, body: seq<byte>, client: Client)
    requires Inv(c) && c.state.BodyIdentity? && |body| == c.contentLength
    ensures Reaches(c, log, body, Completed(c.(contentLength := 0, state := MessageDone), client),
                    Deliver(log, Body, body) + [Notified(MessageComplete)], client)
  {
    var n := |body|;
    assert n > 0;
    var c1 := c.(contentLength := 0, state := MessageDone);
    assert HttpParser.BodyOver(c) == c1
           && Commit(MessageDone, Deliver(log, Body, body), log) == Deliver(log, Body, body);
    hide Run, Inv, VisitByte, Record, Deliver, Completed;
    HttpParser.RunBodyEnd(c, log, log, body, n, client);
    assert body[..n] == body && body[n - 1..] == [body[n - 1]];
    var l1 := Deliver(log, Body, body);
    DoneMessage(c1, l1, body[n - 1], client);
    Byte(c1, l1, body[n - 1], VisitByte(c1, body[n - 1], client), client);
  }

  lemma EofRead(c0: Core, log0: Log, pre: seq<byte>, c: Core, log: Log, body: seq<byte>, client: Client)
    requires Reaches(c0, log0, pre, c, log, client) && c.state.BodyIdentityEof?
    ensures Reaches(c0, log0, pre + body, c, BodyLog(log, body), client)
  {
    InvOf(c0, log0, pre, c, log, client);
    hide Inv, VisitByte, Record;
    if body == [] {
      assert pre + body == pre;
    } else {
      assert HttpParser.Eaten(c, |body|) == c;
      HttpParser.RunBodyPart(c, log, log, body, |body|, client);
      assert body[..|body|] == body && body[|body|..] == [];
      Then(c0, log0, pre, c, log, body, c, Deliver(log, Body, body), client);
    }
  }
}
