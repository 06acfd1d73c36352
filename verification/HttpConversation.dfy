/** A client that reads responses with the parser. The header size limit counts head by head and
    line by line: bodies of any length do not bring it nearer. */
module HttpConversation {
  import opened HttpTypes
  import opened HttpVisit
  import opened HttpRun
  import opened HttpSize
  import opened HttpMessage
  import opened HttpRoundTrip
  import opened HttpHeaderRead
  import opened HttpBodyRead
  import opened HttpChunkRead
  import opened HttpResponse
  import HttpParser
  import HttpSplit

  /** A head of at most SHORT bytes after trailers of at most SHORT bytes stays below the limit. */
  const SHORT: nat := (MAX_HEADER_SIZE - 4) / 10

  /** Head, trailers with the last size line, and every other size line are short. */
  predicate Short(m: Response) {
    && |HeadText(m)| + 2 <= SHORT
    && match m.body
       case InPieces(cs, size, ext, trailers, _) =>
         && (forall c <- cs :: |c.size| + |c.ext| + 2 <= 2 * SHORT)
         && |size| + |ext| + 2 + |PrintHeaders(trailers)| + 2 <= SHORT
       case _ => true
  }

  // ----- counting part by part --------------------------------------------------------

  lemma NoSizes(c: Core, n: nat, client: Client, m: nat)
    requires Inv(c) && n <= m
    ensures Sizes(c, n, [], client, n, m)
  {
    SizesNothing(c, n, client);
  }

  lemma ThenSizes(c: Core, log: Log, n: nat, a: seq<byte>, c1: Core, log1: Log, k: nat, b: seq<byte>, l: nat,
                  client: Client, m: nat)
    requires Reaches(c, log, a, c1, log1, client)
    requires Sizes(c, n, a, client, k, m) && Sizes(c1, k, b, client, l, m)
    ensures Sizes(c, n, a + b, client, l, m)
  {
    hide Last, Peak, Inv, Run;
    SizesSplit(c, log, n, a, b, client);
  }

  lemma ByteSizes(c: Core, n: nat, b: byte, client: Client)
    requires Inv(c) && VisitByte(c, b, client).next.Advance?
    ensures var v := VisitByte(c, b, client);
            var n2 := Counted(c, v, n, client);
            Inv(v.core) && Last(c, n, [b], client) == n2 && Peak(c, n, [b], client) == Max(n, n2)
  {
    hide Inv, VisitByte, Last, Peak, Counted;
    SizesOne(c, n, [b], client);
    var v := VisitByte(c, b, client);
    SizesNothing(v.core, Counted(c, v, n, client), client);
    assert [b][1..] == [];
  }

  /** A text that ends with a byte that sets the count back. */
  lemma EndSizes(c: Core, log: Log, n: nat, a: seq<byte>, c1: Core, log1: Log, b: seq<byte>, client: Client)
    requires Reaches(c, log, a, c1, log1, client) && forall k :: Last(c1, k, b, client) == 0
    ensures Sizes(c, n, a + b, client, 0, n + |a + b|)
  {
    hide Last, Peak, Inv, Run;
    SizesSplit(c, log, n, a, b, client);
    SizesGrow(c, n, a + b, client);
  }

  // ----- heads ------------------------------------------------------------------------

  /** The end of the headers sets the count back. */
  lemma HeadersReset(c: Core, n: nat, client: Client)
    requires Inv(c) && c.state.HeadersAlmostDone? && c.kind.Response? && NoUpgrade(c) && Trailing !in c.flags
    ensures Last(c, n, [LF], client) == 0
  {
    hide Inv, VisitByte, Last, Peak, Record, Headed, HasBody, Counted;
    AlmostDoneVisit(c, [], client);
    SizesOne(c, n, [LF], client);
    var v := VisitByte(c, LF, client);
    var c2 := v.core;
    var n2 := Counted(c, v, n, client);
    DoneVisit(c2, [], client);
    ByteSizes(c2, n2, LF, client);
    DoneResets(c2, VisitByte(c2, LF, client), n2, client);
  }

  lemma DoneResets(c: Core, v: Visit, n: nat, client: Client)
    requires ResetsCount(c.state)
    ensures Counted(c, v, n, client) == 0
  {
  }

  /** So it does when the empty line is a bare line feed, that is looked at again and again. */
  lemma LineReset(c: Core, log: Log, n: nat, client: Client)
    requires Inv(c) && AtLine(c.state) && Inv(Settle(c).(state := HeadersAlmostDone))
    requires Settle(c).kind.Response? && NoUpgrade(Settle(c)) && Trailing !in Settle(c).flags
    ensures Last(c, n, [LF], client) == 0
  {
    if c.state.HeaderFieldStart? {
      FieldReset(c, n, client);
    } else {
      SettleLF(c, log, client);
      hide Inv, VisitByte, Last, Peak, Record, Counted, Settle;
      SizesOne(c, n, [LF], client);
      FieldReset(Settle(c), Counted(c, VisitByte(c, LF, client), n, client), client);
    }
  }

  lemma FieldReset(c: Core, n: nat, client: Client)
    requires Inv(c) && c.state.HeaderFieldStart? && Inv(c.(state := HeadersAlmostDone))
    requires c.kind.Response? && NoUpgrade(c) && Trailing !in c.flags
    ensures Last(c, n, [LF], client) == 0
  {
    LFVisit(c, [], client);
    hide Inv, VisitByte, Last, Peak, Record, Counted;
    SizesOne(c, n, [LF], client);
    HeadersReset(c.(state := HeadersAlmostDone), Counted(c, VisitByte(c, LF, client), n, client), client);
  }

  lemma HeadSizes(c: Core, log: Log, n: nat, m: Response, client: Client)
    returns (s: Core)
    requires Ready(c) && GoodResponse(m)
    ensures HeadRead(s, m)
    ensures Reaches(c, log, HeadText(m) + PrintEol(m.empty), Headed(s, client), HeadedLog(s, HeadLog(log, m)), client)
    ensures Sizes(c, n, HeadText(m) + PrintEol(m.empty), client, 0, n + |HeadText(m)| + 2)
  {
    hide Reaches, Inv, Run, Settle, Settled, HeadRead, Ends, HeadLog, AtLine, Headed, HeadText, Effects, Sizes,
         HeadedLog, Last;
    ReadHead(c, log, m, client);
    var c1, log1 :| Reaches(c, log, HeadText(m), c1, log1, client) && AtLine(c1.state) && OnResponses(c1)
                    && HeadRead(Settle(c1), m) && Settled(c1, log1) == HeadLog(log, m);
    s := Settle(c1);
    HeadFacts(s, m);
    HeadEnd(c, log, HeadText(m), c1, log1, m.empty, client);
    EndCounts(c, log, n, HeadText(m), c1, log1, m.empty, client);
    MorePeak(c, n, HeadText(m) + PrintEol(m.empty), client, 0, n + |HeadText(m) + PrintEol(m.empty)|,
             n + |HeadText(m)| + 2);
  }

  /** A head counts at most its bytes, and its end sets the count back. */
  lemma EndCounts(c: Core, log: Log, n: nat, pre: seq<byte>, c1: Core, log1: Log, eol: Eol, client: Client)
    requires Reaches(c, log, pre, c1, log1, client) && AtLine(c1.state)
    requires Settle(c1).kind.Response? && NoUpgrade(Settle(c1)) && Trailing !in Settle(c1).flags
    ensures Sizes(c, n, pre + PrintEol(eol), client, 0, n + |pre + PrintEol(eol)|)
  {
    hide Reaches, Inv, Run, Settle, Settled, Sizes, Last;
    EmptyLineCR(c, log, pre, c1, log1, client);
    var c2 := Settle(c1).(state := HeadersAlmostDone);
    InvOf(c, log, pre, c1, log1, client);
    InvOf(c, log, pre + [CR], c2, Settled(c1, log1), client);
    if eol.CrLf? {
      forall k: nat ensures Last(c2, k, [LF], client) == 0 {
        HeadersReset(c2, k, client);
      }
      EndSizes(c, log, n, pre + [CR], c2, Settled(c1, log1), [LF], client);
      assert pre + [CR] + [LF] == pre + PrintEol(eol);
    } else {
      forall k: nat ensures Last(c1, k, [LF], client) == 0 {
        LineReset(c1, log1, k, client);
      }
      EndSizes(c, log, n, pre, c1, log1, [LF], client);
    }
  }

  lemma HeadFacts(s: Core, m: Response)
    requires GoodResponse(m) && HeadRead(s, m)
    ensures NoUpgrade(s) && Trailing !in s.flags && s.kind.Response?
  {
    hide Effects, Dec, BodyFits;
    EffectsGrow(Framing({}, NO_LENGTH), m.headers);
  }

  // ----- bodies -----------------------------------------------------------------------

  /** Bytes of a body short of its end do not count. */
  lemma {:induction false} PartSizes(c: Core, n: nat, s: seq<byte>, client: Client)
    requires Inv(c) && BodyByte(c.state) && (c.state.BodyIdentityEof? || |s| < c.contentLength)
    ensures Sizes(c, n, s, client, n, n)
    decreases |s|
  {
    hide Inv, VisitByte, Last, Peak, Counted;
    SizesNothing(c, n, client);
    HttpParser.EatenState(c, 1);
    if s != [] {
      SizesOne(c, n, s, client);
      HttpParser.BodyVisit(c, n, s[0], client);
      PartSizes(HttpParser.Eaten(c, 1), n, s[1..], client);
    }
  }

  /** Nor does its end. */
  lemma {:induction false} BodySizes(c: Core, s: seq<byte>, client: Client)
    requires Inv(c) && (c.state.BodyIdentity? || c.state.ChunkData?) && |s| == c.contentLength > 0
    ensures Sizes(c, 0, s, client, 0, 0)
    decreases |s|
  {
    hide Inv, VisitByte, Last, Peak, Counted;
    HttpParser.EatenState(c, 1);
    SizesOne(c, 0, s, client);
    HttpParser.BodyVisit(c, 0, s[0], client);
    if |s| > 1 {
      BodySizes(HttpParser.Eaten(c, 1), s[1..], client);
    } else if c.state.BodyIdentity? {
      DoneSizes(HttpParser.BodyOver(c), s[0], client);
      assert s == [s[0]];
    } else {
      ByteSizes(c, 0, s[0], client);
      assert s == [s[0]];
    }
  }

  lemma DoneSizes(c: Core, b: byte, client: Client)
    requires Inv(c) && c.state.MessageDone?
    ensures Sizes(c, 0, [b], client, 0, 0)
  {
    hide Inv, VisitByte, Last, Peak, Record, Completed;
    DoneMessage(c, [], b, client);
    ByteSizes(c, 0, b, client);
  }

  lemma MorePeak(c: Core, n: nat, s: seq<byte>, client: Client, last: nat, peak: nat, more: nat)
    requires Sizes(c, n, s, client, last, peak) && peak <= more
    ensures Sizes(c, n, s, client, last, more)
  {
  }

  /** The line that gives a chunk's size is counted from 0 and sets the count back. */
  lemma LineSizes(c: Core, size: seq<byte>, ext: seq<byte>, client: Client)
    requires Inv(c) && c.state.ChunkSizeStart? && GoodSize(size) && GoodExt(ext)
    ensures Sizes(c, 0, size + ext + [CR, LF], client, 0, |size| + |ext| + 2)
  {
    hide Run, Inv, VisitByte, Reaches, Record, Hex, GoodExt, Last, Peak, Sizes, Counted;
    Nothing(c, [], client);
    SizeLineCR(c, [], [], c, [], size, ext, client);
    var c1 := c.(state := ChunkSizeAlmostDone, contentLength := Hex(size));
    var line := [] + size + ext + [CR];
    InvOf(c, [], line, c1, [], client);
    forall k: nat ensures Last(c1, k, [LF], client) == 0 {
      SizeDoneVisit(c1, [], client);
      ByteSizes(c1, k, LF, client);
      DoneResets(c1, VisitByte(c1, LF, client), k, client);
    }
    EndSizes(c, [], 0, line, c1, [], [LF], client);
    assert line + [LF] == size + ext + [CR, LF];
  }

  lemma DataEndSizes(c: Core, client: Client)
    requires Inv(c) && c.state.ChunkDataAlmostDone?
    ensures Sizes(c, 0, [CR, LF], client, 0, 0)
  {
    hide Inv, VisitByte, Last, Peak, Record;
    DataEndVisits(c, [], client);
    SizesOne(c, 0, [CR, LF], client);
    var v := VisitByte(c, CR, client);
    DataEndVisits(v.core, [], client);
    ByteSizes(v.core, 0, LF, client);
    assert [CR, LF][1..] == [LF];
  }

  lemma ChunkSizes(c: Core, chunk: Chunk, client: Client, m: nat)
    requires Inv(c) && c.state.ChunkSizeStart? && GoodChunk(chunk) && |chunk.size| + |chunk.ext| + 2 <= m
    ensures Sizes(c, 0, PrintChunk(chunk), client, 0, m)
  {
    hide Run, Inv, VisitByte, Reaches, Record, Deliver, Hex, GoodSize, GoodExt, Last, Peak, Sizes;
    Nothing(c, [], client);
    var line := chunk.size + chunk.ext + [CR, LF];
    var c1 := c.(state := ChunkData, contentLength := |chunk.payload|);
    LineSizes(c, chunk.size, chunk.ext, client);
    MorePeak(c, 0, line, client, 0, |line|, m);
    SizeLine(c, [], [], c, [], chunk.size, chunk.ext, client);
    assert [] + chunk.size + chunk.ext + [CR, LF] == line;
    InvOf(c, [], line, c1, [], client);
    BodySizes(c1, chunk.payload, client);
    MorePeak(c1, 0, chunk.payload, client, 0, 0, m);
    ThenSizes(c, [], 0, line, c1, [], 0, chunk.payload, 0, client, m);
    DataRead(c, [], line, c1, [], chunk.payload, client);
    var c2 := c1.(contentLength := 0, state := ChunkDataAlmostDone);
    var log2 := Deliver([], Body, chunk.payload);
    InvOf(c, [], line + chunk.payload, c2, log2, client);
    DataEndSizes(c2, client);
    MorePeak(c2, 0, [CR, LF], client, 0, 0, m);
    ThenSizes(c, [], 0, line + chunk.payload, c2, log2, 0, [CR, LF], 0, client, m);
    assert line + chunk.payload + [CR, LF] == PrintChunk(chunk);
  }

  /** Chunks of any number and size: only the longest size line counts. */
  lemma {:induction false} ChunksSizes(c: Core, cs: seq<Chunk>, client: Client, m: nat)
    requires Inv(c) && c.state.ChunkSizeStart?
    requires forall x <- cs :: GoodChunk(x) && |x.size| + |x.ext| + 2 <= m
    ensures Sizes(c, 0, PrintChunks(cs), client, 0, m)
  {
    hide *;
    if cs == [] {
      ChunksNone([]);
      NoSizes(c, 0, client, m);
    } else {
      var front, last := cs[..|cs| - 1], cs[|cs| - 1];
      assert last in cs && forall x <- front :: x in cs;
      ChunksSizes(c, front, client, m);
      Nothing(c, [], client);
      ChunksRead(c, [], [], c, [], front, client);
      assert [] + PrintChunks(front) == PrintChunks(front);
      var c1 := if front == [] then c else c.(contentLength := 0);
      var log1 := BodyLog([], Payload(front));
      InvOf(c, [], PrintChunks(front), c1, log1, client);
      ChunkSizes(c1, last, client, m);
      ThenSizes(c, [], 0, PrintChunks(front), c1, log1, 0, PrintChunk(last), 0, client, m);
      ChunksMore(cs, []);
    }
  }

  /** A body of short lines: what is left of it is what its trailers count. */
  lemma BodyCounts(c: Core, m: Response, client: Client)
    returns (k: nat)
    requires GoodResponse(m) && Short(m) && HeadRead(c, m) && Inv(Headed(c, client))
    ensures k <= SHORT && Sizes(Headed(c, client), 0, PrintBody(m.body), client, k, 2 * SHORT)
  {
    hide Inv, Sizes, Headed, GoodResponse, HeadRead, Hex, Effects, PrintChunks, PrintHeaders, HasBody, Settle,
         SizeLineDone,
         GoodChunk, GoodHeader;
    var c1 := Headed(c, client);
    match m.body {
      case NoBody =>
        NoSizes(c1, 0, client, 2 * SHORT);
        k := 0;
      case Identity(bytes) =>
        IdentityHead(c, m, client);
        BodySizes(c1, bytes, client);
        MorePeak(c1, 0, bytes, client, 0, 0, 2 * SHORT);
        k := 0;
      case UntilClose(bytes) =>
        CloseHead(c, m, client);
        PartSizes(c1, 0, bytes, client);
        MorePeak(c1, 0, bytes, client, 0, 0, 2 * SHORT);
        k := 0;
      case InPieces(cs, size, ext, trailers, end) =>
        PiecesHead(c, m, client);
        var tail := size + ext + [CR, LF] + PrintHeaders(trailers) + PrintEol(end);
        k := PiecesCounts(c1, cs, tail, client);
        assert PrintChunks(cs) + tail == PrintBody(m.body);
    }
  }

  lemma PiecesCounts(c: Core, cs: seq<Chunk>, tail: seq<byte>, client: Client)
    returns (k: nat)
    requires Inv(c) && c.state.ChunkSizeStart? && |tail| <= SHORT
    requires forall x <- cs :: GoodChunk(x) && |x.size| + |x.ext| + 2 <= 2 * SHORT
    ensures k <= SHORT && Sizes(c, 0, PrintChunks(cs) + tail, client, k, 2 * SHORT)
  {
    hide Run, Inv, Reaches, Last, Peak, PrintChunks, GoodChunk, Payload, BodyLog;
    ChunksSizes(c, cs, client, 2 * SHORT);
    Nothing(c, [], client);
    ChunksRead(c, [], [], c, [], cs, client);
    assert [] + PrintChunks(cs) == PrintChunks(cs);
    var c1 := if cs == [] then c else c.(contentLength := 0);
    var log1 := BodyLog([], Payload(cs));
    InvOf(c, [], PrintChunks(cs), c1, log1, client);
    SizesGrow(c1, 0, tail, client);
    k := Last(c1, 0, tail, client);
    ThenSizes(c, [], 0, PrintChunks(cs), c1, log1, 0, tail, k, client, 2 * SHORT);
  }

  // ----- responses --------------------------------------------------------------------

  lemma ResponseSizes(c: Core, log: Log, n: nat, m: Response, client: Client)
    returns (k: nat)
    requires Ready(c) && GoodResponse(m) && Short(m) && n <= SHORT
    ensures k <= SHORT && Sizes(c, n, PrintResponse(m), client, k, 2 * SHORT)
  {
    hide Run, Inv, Reaches, Sizes, HeadRead, GoodResponse, Headed, HeadedLog, HeadLog, Ready, PrintBody, Effects;
    var s := HeadSizes(c, log, n, m, client);
    var head := HeadText(m) + PrintEol(m.empty);
    var log1 := HeadedLog(s, HeadLog(log, m));
    InvOf(c, log, head, Headed(s, client), log1, client);
    k := BodyCounts(s, m, client);
    MorePeak(c, n, head, client, 0, n + |HeadText(m)| + 2, 2 * SHORT);
    ThenSizes(c, log, n, head, Headed(s, client), log1, 0, PrintBody(m.body), k, client, 2 * SHORT);
    assert head + PrintBody(m.body) == PrintResponse(m);
  }

  /** However many responses there are and however long their bodies: the count stays below twice
      SHORT, and not more than the trailers of the last one is left. */
  lemma {:induction false} ConversationSizes(c: Core, log: Log, n: nat, ms: seq<Response>, client: Client)
    returns (k: nat)
    requires Ready(c) && n <= SHORT && forall m <- ms :: GoodResponse(m) && Persistent(m) && Short(m)
    ensures k <= SHORT && Sizes(c, n, PrintAll(ms), client, k, 2 * SHORT)
  {
    hide Run, Inv, Reaches, PrintResponse, ResponseLog, Persistent, GoodResponse, Sizes, Short;
    ReadyInv(c);
    if ms == [] {
      NoSizes(c, n, client, 2 * SHORT);
      k := n;
    } else {
      var front, m := ms[..|ms| - 1], ms[|ms| - 1];
      var k1 := ConversationSizes(c, log, n, front, client);
      ConversationRoundTrip(c, log, front, client);
      var c1 :| Reaches(c, log, PrintAll(front), c1, LogAll(log, front), client) && Ready(c1);
      k := ResponseSizes(c1, LogAll(log, front), k1, m, client);
      ThenSizes(c, log, n, PrintAll(front), c1, LogAll(log, front), k1, PrintResponse(m), k, client, 2 * SHORT);
    }
  }

  lemma ConversationSizesAnd(c: Core, log: Log, n: nat, ms: seq<Response>, end: Response, client: Client)
    returns (k: nat, c2: Core)
    requires Ready(c) && n <= SHORT && forall m <- ms :: GoodResponse(m) && Persistent(m) && Short(m)
    requires GoodResponse(end) && Short(end)
    ensures k <= SHORT && Sizes(c, n, PrintAll(ms) + PrintResponse(end), client, k, 2 * SHORT)
    ensures Reaches(c, log, PrintAll(ms) + PrintResponse(end), c2, ResponseLog(LogAll(log, ms), end), client)
            && Ends(c2, end)
  {
    hide Run, Inv, Reaches, PrintResponse, ResponseLog, Persistent, GoodResponse, Sizes, Short, PrintAll, LogAll, Ready,
         Ends;
    var k1 := ConversationSizes(c, log, n, ms, client);
    ConversationRoundTrip(c, log, ms, client);
    var c1 :| Reaches(c, log, PrintAll(ms), c1, LogAll(log, ms), client) && Ready(c1);
    var log1 := LogAll(log, ms);
    k := ResponseSizes(c1, log1, k1, end, client);
    ResponseRoundTrip(c1, log1, end, client);
    c2 :| Reaches(c1, log1, PrintResponse(end), c2, ResponseLog(log1, end), client) && Ends(c2, end);
    Then(c, log, PrintAll(ms), c1, log1, PrintResponse(end), c2, ResponseLog(log1, end), client);
    ThenSizes(c, log, n, PrintAll(ms), c1, log1, k1, PrintResponse(end), k, client, 2 * SHORT);
  }

  lemma ReachesRun(c: Core, log: Log, s: seq<byte>, c2: Core, log2: Log, client: Client)
    requires Reaches(c, log, s, c2, log2, client)
    ensures Inv(c) && Run(c, log, log, s, client) == Result(c2, log2, log2, [], Running)
    ensures c.errno.Ok? && c2.errno.Ok?
  {
  }

  /** Any number of responses that keep the connection and one that need not, read with the parser
      however the network cuts them: all of them are delivered, byte for byte, and no call runs
      into the header size limit. */
  method ReadResponses(p: HttpParser.Parser, pieces: seq<seq<byte>>, ghost ms: seq<Response>, ghost end: Response)
    returns (parsed: nat)
    requires p.Valid() && Ready(p.core) && p.header <= SHORT
    requires forall i :: 0 <= i < |pieces| ==> pieces[i] != []
    requires (forall m <- ms :: GoodResponse(m) && Persistent(m) && Short(m)) && GoodResponse(end) && Short(end)
    requires HttpSplit.Joined(pieces) == PrintAll(ms) + PrintResponse(end)
    modifies p
    ensures p.Valid() && p.log == ResponseLog(LogAll(old(p.log), ms), end)
    ensures Ends(p.core, end) && p.core.errno.Ok? && parsed == |HttpSplit.Joined(pieces)|
    ensures p.header <= SHORT && (Persistent(end) ==> Ready(p.core))
  {
    hide Run, Inv, Reaches, PrintResponse, ResponseLog, Persistent, GoodResponse, Short, Ready, Ends;
    ReadyInv(p.core);
    ghost var k, c := ConversationSizesAnd(p.core, p.log, p.header, ms, end, p.client);
    ReachesRun(p.core, p.log, HttpSplit.Joined(pieces), c, ResponseLog(LogAll(p.log, ms), end), p.client);
    parsed := HttpSplit.Feed(p, pieces);
    if Persistent(end) {
      EndsOpen(p.core, end);
    }
  }
}
