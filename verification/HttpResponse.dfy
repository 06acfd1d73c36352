/** Round trip: whatever well-formed responses are printed one after the other, the parser
    delivers exactly those responses. */
module HttpResponse {
  import opened HttpTypes
  import opened HttpVisit
  import opened HttpRun
  import opened HttpMessage
  import opened HttpRoundTrip
  import opened HttpHeaderRead
  import opened HttpBodyRead
  import opened HttpChunkRead

  /** A parser that is about to read a response. */
  predicate Ready(c: Core) { Inv(c) && c.state.StartRes? && OnResponses(c) }

  predicate OnResponses(c: Core) { c.kind.Response? && !c.verb.Connect? }

  /** The parser before the empty line, settled. */
  predicate HeadRead(c: Core, m: Response)
    requires GoodResponse(m)
  {
    && OnResponses(c) && c.state.HeaderFieldStart? && FramingOf(c) == Announced(m)
    && c.major == Dec(m.major) && c.minor == Dec(m.minor) && c.status == Dec(m.code)
  }

  function HeadText(m: Response): seq<byte> {
    m.lead + PrintStatusLine(m.major, m.minor, m.gap, m.code, m.tail) + PrintHeaders(m.headers)
  }

  function HeadLog(log: Log, m: Response): Log {
    HeaderLog(ReasonLog(Begun(log, |m.lead| + 1), ReasonOf(m.tail)), m.headers)
  }

  lemma ReadHead(c: Core, log: Log, m: Response, client: Client)
    requires Ready(c) && GoodResponse(m)
    ensures exists c1, log1 ::
              Reaches(c, log, HeadText(m), c1, log1, client) && AtLine(c1.state) && OnResponses(c1)
              && HeadRead(Settle(c1), m) && Settled(c1, log1) == HeadLog(log, m)
  {
    hide Run, Inv, Reaches, Dec, HeaderLog, ReasonLog, AfterHeaders, Effects, BodyFits, PrintHeaders, PrintStatusLine,
         Settled, FinishFlags, GoodNumber, GoodReason, GoodLead, StatusCore, Settle, AtLine, Ready, Begun;
    ReadyInv(c);
    var c0 := LineCore(c, m);
    LineCoreFacts(c, m);
    var log0 := ReasonLog(Begun(log, |m.lead| + 1), ReasonOf(m.tail));
    var line := m.lead + PrintStatusLine(m.major, m.minor, m.gap, m.code, m.tail);
    SettledThere(c0, log0);
    StatusLineRead(c, log, m.lead, m.major, m.minor, m.gap, m.code, m.tail, client);
    HeadersRead(c, log, line, c0, log0, m.headers, client);
    HeadersEffect(c0, m.headers);
    var c1 := AfterHeaders(c0, m.headers);
    SettleKeeps(c1);
    var log1 :| Reaches(c, log, HeadText(m), c1, log1, client) && Settled(c1, log1) == HeaderLog(log0, m.headers);
    assert HeadRead(Settle(c1), m);
  }

  /** The parser after the status line. */
  function LineCore(c: Core, m: Response): Core
    requires GoodResponse(m)
  {
    var s := StatusCore(c, m.major, m.minor, m.code);
    s.(state := HeaderFieldStart, index := TailIndex(s, m.tail))
  }

  lemma LineCoreFacts(c: Core, m: Response)
    requires Ready(c) && GoodResponse(m)
    ensures c.state.StartRes?
    ensures var c0 := LineCore(c, m);
            && Settle(c0) == c0 && FramingOf(c0) == Framing({}, NO_LENGTH) && OnResponses(c0) && AtLine(c0.state)
            && c0.major == Dec(m.major) && c0.minor == Dec(m.minor) && c0.status == Dec(m.code)
  {
  }

  lemma SettledThere(c: Core, log: Log)
    requires c.state.HeaderFieldStart?
    ensures Settled(c, log) == log
  {
  }

  lemma SettleKeeps(c: Core)
    ensures var s := Settle(c); s.state.HeaderFieldStart? && s.kind == c.kind && s.verb == c.verb
  {
  }

  /** Where the parser is after the body. */
  ghost predicate Ends(c: Core, m: Response)
    requires GoodResponse(m)
  {
    && Inv(c) && OnResponses(c)
    && c.state == if m.body.UntilClose? then BodyIdentityEof else if Persistent(m) then StartRes else Dead
  }

  predicate KeepsOpen(m: Response, flags: set<Flag>)
    requires GoodResponse(m)
  {
    if Dec(m.major) > 0 && Dec(m.minor) > 0 then ConnClose !in flags else ConnKeepAlive in flags
  }

  /** After a message whose end is known, the parser is at the next one or refuses more. */
  lemma CompletedState(c: Core, m: Response, client: Client)
    requires GoodResponse(m) && OnResponses(c) && c.major == Dec(m.major) && c.minor == Dec(m.minor)
    requires !MessageNeedsEof(c)
    ensures Completed(c, client).state == if KeepsOpen(m, c.flags) then StartRes else Dead
    ensures OnResponses(Completed(c, client))
  {
  }

  lemma NoBodyEnds(c: Core, m: Response, client: Client)
    requires GoodResponse(m) && HeadRead(c, m) && m.body.NoBody? && Inv(Headed(c, client))
    ensures !HasBody(c) && Ends(Headed(c, client), m)
  {
    hide Announced, Dec, GoodHeaders, GoodReason, Completed;
    CompletedState(c.(state := HeadersDone, upgrade := false), m, client);
  }

  lemma ReadBody(c: Core, log: Log, pre: seq<byte>, c1: Core, log1: Log, m: Response, client: Client)
    requires GoodResponse(m) && AtLine(c1.state) && OnResponses(c1) && HeadRead(Settle(c1), m)
    requires Reaches(c, log, pre, c1, log1, client)
    requires Settled(c1, log1) == HeadLog(log, m)
    ensures exists c2 ::
              Reaches(c, log, pre + PrintEol(m.empty) + PrintBody(m.body), c2, ResponseLog(log, m), client)
              && Ends(c2, m)
  {
    var s := Settle(c1);
    EffectsGrow(Framing({}, NO_LENGTH), m.headers);
    HeadEnd(c, log, pre, c1, log1, m.empty, client);
    var c2 := Headed(s, client);
    var p := pre + PrintEol(m.empty);
    InvOf(c, log, p, c2, HeadedLog(s, Settled(c1, log1)), client);
    match m.body {
      case NoBody =>
        hide Reaches, Inv, Run, Settle, Settled, Headed, HasBody, HeaderLog, Announced;
        NoBodyEnds(s, m, client);
        assert p + [] == p;
      case Identity(bytes) => ReadIdentity(c, log, p, s, m, client);
      case InPieces(_, _, _, _, _) => ReadPieces(c, log, p, s, m, client);
      case UntilClose(bytes) => ReadToClose(c, log, p, s, m, client);
    }
  }

  lemma IdentityHead(s: Core, m: Response, client: Client)
    requires GoodResponse(m) && HeadRead(s, m) && m.body.Identity?
    ensures Headed(s, client) == s.(state := BodyIdentity, upgrade := false) && HasBody(s)
    ensures 0 < s.contentLength == |m.body.bytes|
    ensures var c := s.(state := MessageDone, upgrade := false, contentLength := 0);
            !MessageNeedsEof(c) && OnResponses(c) && (KeepsOpen(m, c.flags) <==> Persistent(m))
            && c.major == Dec(m.major) && c.minor == Dec(m.minor)
  {
    hide Announced, Dec;
  }

  lemma ReadIdentity(c: Core, log: Log, p: seq<byte>, s: Core, m: Response, client: Client)
    requires GoodResponse(m) && HeadRead(s, m) && m.body.Identity?
    requires Reaches(c, log, p, Headed(s, client), HeadedLog(s, HeadLog(log, m)), client)
    ensures exists c2 :: Reaches(c, log, p + PrintBody(m.body), c2, ResponseLog(log, m), client) && Ends(c2, m)
  {
    hide Reaches, Inv, Run, HeaderLog, GoodResponse, Dec, Completed, Deliver, HeadRead, Headed, HasBody,
         MessageNeedsEof, KeepsOpen, Persistent;
    IdentityHead(s, m, client);
    var c1 := s.(state := BodyIdentity, upgrade := false);
    IdentityRead(c, log, p, c1, HeadLog(log, m) + [Notified(HeadersComplete)], m.body.bytes, client);
    var c2 := c1.(contentLength := 0, state := MessageDone);
    CompletedState(c2, m, client);
    InvOf(c, log, p + m.body.bytes, Completed(c2, client), ResponseLog(log, m), client);
    assert Reaches(c, log, p + PrintBody(m.body), Completed(c2, client), ResponseLog(log, m), client);
    assert Ends(Completed(c2, client), m);
  }

  lemma CloseHead(s: Core, m: Response, client: Client)
    requires GoodResponse(m) && HeadRead(s, m) && m.body.UntilClose?
    ensures Headed(s, client) == s.(state := BodyIdentityEof, upgrade := false) && HasBody(s) && OnResponses(s)
  {
    hide Announced, Dec;
  }

  lemma ReadToClose(c: Core, log: Log, p: seq<byte>, s: Core, m: Response, client: Client)
    requires GoodResponse(m) && HeadRead(s, m) && m.body.UntilClose?
    requires Reaches(c, log, p, Headed(s, client), HeadedLog(s, HeadLog(log, m)), client)
    ensures exists c2 :: Reaches(c, log, p + PrintBody(m.body), c2, ResponseLog(log, m), client) && Ends(c2, m)
  {
    hide Reaches, Inv, Run, HeaderLog, GoodResponse, Dec, Deliver, HeadRead, Headed, HasBody, BodyLog;
    CloseHead(s, m, client);
    var c1 := s.(state := BodyIdentityEof, upgrade := false);
    EofRead(c, log, p, c1, HeadLog(log, m) + [Notified(HeadersComplete)], m.body.bytes, client);
    InvOf(c, log, p, c1, HeadLog(log, m) + [Notified(HeadersComplete)], client);
    assert Ends(c1, m);
    assert Reaches(c, log, p + PrintBody(m.body), c1, ResponseLog(log, m), client);
  }

  lemma PiecesHead(s: Core, m: Response, client: Client)
    requires GoodResponse(m) && HeadRead(s, m) && m.body.InPieces?
    ensures Headed(s, client) == s.(state := ChunkSizeStart, upgrade := false) && HasBody(s)
    ensures var b := m.body;
            (forall c <- b.chunks :: GoodChunk(c)) && GoodSize(b.lastSize) && Hex(b.lastSize) == 0 && GoodExt(b.lastExt)
            && GoodHeaders(b.trailers)
    ensures var c2 := SizeLineDone(s.(state := ChunkSizeStart, upgrade := false), 0);
            Settle(c2) == c2 && FramingOf(c2) == Framing(Announced(m).flags + {Trailing}, 0) && Chunked in c2.flags
            && OnResponses(c2) && c2.major == Dec(m.major) && c2.minor == Dec(m.minor)
  {
    hide Announced, Dec, GoodChunk, GoodHeader, Hex;
  }

  lemma PiecesPersist(c: Core, m: Response)
    requires GoodResponse(m) && m.body.InPieces? && Chunked in c.flags
    requires c.flags == Effects(Framing(Announced(m).flags + {Trailing}, 0), m.body.trailers).flags
    ensures !MessageNeedsEof(c) && (KeepsOpen(m, c.flags) <==> Persistent(m))
  {
    hide Announced, Dec, GoodChunk, GoodHeader, Hex, Effects;
  }

  lemma ReadPieces(c: Core, log: Log, p: seq<byte>, s: Core, m: Response, client: Client)
    requires GoodResponse(m) && HeadRead(s, m) && m.body.InPieces?
    requires Reaches(c, log, p, Headed(s, client), HeadedLog(s, HeadLog(log, m)), client)
    ensures exists c2 :: Reaches(c, log, p + PrintBody(m.body), c2, ResponseLog(log, m), client) && Ends(c2, m)
  {
    var b := m.body;
    hide Reaches, Inv, Run, HeaderLog, GoodResponse, Announced, Dec, Completed, Deliver, Hex, AfterHeaders, Effects,
         Payload,
         PrintChunks, PrintHeaders, GoodHeader, GoodChunk, Settle, HeadRead, Headed, HasBody, Persistent, SizeLineDone,
         MessageNeedsEof, KeepsOpen;
    PiecesHead(s, m, client);
    var c1 := s.(state := ChunkSizeStart, upgrade := false);
    var c2 := SizeLineDone(c1, 0);
    ChunkedBodyRead(c, log, p, c1, HeadLog(log, m) + [Notified(HeadersComplete)], b.chunks, b.lastSize, b.lastExt,
                    b.trailers, b.end, client);
    HeadersEffect(c2, b.trailers);
    EffectsGrow(FramingOf(c2), b.trailers);
    var c3 := Settle(AfterHeaders(c2, b.trailers)).(state := HeadersAlmostDone);
    PiecesPersist(c3, m);
    CompletedState(c3, m, client);
    var text := p + PrintChunks(b.chunks) + (b.lastSize + b.lastExt + [CR, LF]) + PrintHeaders(b.trailers)
                + PrintEol(b.end);
    assert text == p + PrintBody(b);
    InvOf(c, log, text, Completed(c3, client), ResponseLog(log, m), client);
    assert Ends(Completed(c3, client), m);
  }

  /** One response: status line, headers, body. */
  lemma ResponseRoundTrip(c: Core, log: Log, m: Response, client: Client)
    requires Ready(c) && GoodResponse(m)
    ensures exists c2 :: Reaches(c, log, PrintResponse(m), c2, ResponseLog(log, m), client) && Ends(c2, m)
  {
    hide Reaches, Inv, Run, Settle, Settled, HeadRead, GoodResponse, Ends, ResponseLog, PrintBody, HeadLog, AtLine;
    ReadHead(c, log, m, client);
    var c1, log1 :| Reaches(c, log, HeadText(m), c1, log1, client) && AtLine(c1.state) && OnResponses(c1)
                    && HeadRead(Settle(c1), m) && Settled(c1, log1) == HeadLog(log, m);
    ReadBody(c, log, HeadText(m), c1, log1, m, client);
    assert HeadText(m) + PrintEol(m.empty) + PrintBody(m.body) == PrintResponse(m);
  }

  /** Any sequence of responses on a connection that each of them leaves open. */
  lemma {:induction false} ConversationRoundTrip(c: Core, log: Log, ms: seq<Response>, client: Client)
    requires Ready(c) && forall m <- ms :: GoodResponse(m) && Persistent(m)
    ensures exists c2 :: Reaches(c, log, PrintAll(ms), c2, LogAll(log, ms), client) && Ready(c2)
  {
    hide Run, Inv, Reaches, PrintResponse, ResponseLog, Persistent, GoodResponse;
    if ms == [] {
      ReadyInv(c);
      Nothing(c, log, client);
      assert Reaches(c, log, PrintAll(ms), c, LogAll(log, ms), client);
    } else {
      var front := ms[..|ms| - 1];
      var m := ms[|ms| - 1];
      ConversationRoundTrip(c, log, front, client);
      var c1 :| Reaches(c, log, PrintAll(front), c1, LogAll(log, front), client) && Ready(c1);
      ResponseRoundTrip(c1, LogAll(log, front), m, client);
      var c2 :| Reaches(c1, LogAll(log, front), PrintResponse(m), c2, LogAll(log, ms), client) && Ends(c2, m);
      EndsOpen(c2, m);
      Then(c, log, PrintAll(front), c1, LogAll(log, front), PrintResponse(m), c2, LogAll(log, ms), client);
    }
  }

  lemma ReadyInv(c: Core)
    requires Ready(c)
    ensures Inv(c)
  {
  }

  lemma EndsOpen(c: Core, m: Response)
    requires GoodResponse(m) && Persistent(m) && Ends(c, m)
    ensures Ready(c)
  {
  }

  /** On a connection that the last response did not leave open only line ends are accepted. */
  lemma {:induction false} DeadRead(c: Core, log: Log, s: seq<byte>, client: Client)
    requires Inv(c) && c.state.Dead?
    ensures var r := Run(c, log, log, s, client);
            if GoodLead(s) then r == Result(c, log, log, [], Running)
            else r.status.Failed? && r.core.errno == ClosedConnection && r.log == log
    decreases |s|
  {
    if s != [] {
      DeadVisit(c, log, s[0], client);
      LeadFirst(s);
      assert Commit(c.state, log, log) == log;
      hide VisitByte, Inv, Record;
      if s[0] == CR || s[0] == LF {
        DeadRead(c, log, s[1..], client);
      }
    }
  }

  lemma LeadFirst(s: seq<byte>)
    requires s != []
    ensures GoodLead(s) <==> (s[0] == CR || s[0] == LF) && GoodLead(s[1..])
  {
    assert s[0] in s && forall b <- s[1..] :: b in s;
    forall b | b in s ensures b == s[0] || b in s[1..] {
      var k :| 0 <= k < |s| && s[k] == b;
      assert k > 0 ==> s[1..][k - 1] == b;
    }
  }

  lemma DeadVisit(c: Core, log: Log, b: byte, client: Client)
    requires Inv(c) && c.state.Dead?
    ensures var v := VisitByte(c, b, client);
            if b == CR || b == LF then v.core == c && v.next.Advance? && Record(c, log, v, b) == log
            else v.next.Fail? && v.core.errno == ClosedConnection
  {
  }
}
