/** Chunked bodies: what is printed in chunks is delivered as one payload. */
module HttpChunkRead {
  import opened HttpTypes
  import opened HttpVisit
  import opened HttpRun
  import opened HttpMessage
  import HttpFolds
  import opened HttpRoundTrip
  import opened HttpHeaderRead
  import opened HttpBodyRead
  import HttpParser

  // ----- the size ---------------------------------------------------------------------

  lemma HexFront(s: seq<byte>)
    requires HexDigits(s)
    ensures forall b <- s[..|s| - 1] :: Unhex(b).Some?
    ensures Unhex(s[|s| - 1]).Some? && Unhex(s[|s| - 1]).value <= 15
    ensures Hex(s) == Hex(s[..|s| - 1]) * 16 + Unhex(s[|s| - 1]).value
  {
    assert Unhex(s[|s| - 1]).Some?;
  }

  lemma HexNone()
    ensures Hex([]) == 0
  {
  }

  lemma HexNoWrap(l: nat, d: nat)
    requires l <= HEX_LIMIT && d <= 15
    ensures (l * 16 + d) % (NO_LENGTH + 1) == l * 16 + d < NO_LENGTH
  {
  }

  /** A size digit after the first: the accumulator takes the exact value, or an error is
      reported; it never wraps around and never equals the "no length" marker. */
  lemma SizeDigit(c: Core, log: Log, b: byte, client: Client)
    requires Inv(c) && c.state.ChunkSize? && Unhex(b).Some?
    ensures var v := VisitByte(c, b, client);
            if c.contentLength <= HEX_LIMIT then
              v.next.Advance? && v.core == c.(contentLength := c.contentLength * 16 + Unhex(b).value)
              && v.core.contentLength < NO_LENGTH && Record(c, log, v, b) == log
            else v.next.Fail? && v.core == c.(errno := InvalidContentLength)
  {
    assert b != CR;
    assert VisitByte(c, b, client) == VisitBody(c, b, client);
    if c.contentLength <= HEX_LIMIT {
      HexNoWrap(c.contentLength, Unhex(b).value);
    }
  }

  lemma FirstSizeDigit(c: Core, log: Log, b: byte, client: Client)
    requires Inv(c) && c.state.ChunkSizeStart? && Unhex(b).Some?
    ensures var v := VisitByte(c, b, client);
            v.next.Advance? && v.core == c.(state := ChunkSize, contentLength := Unhex(b).value)
            && Record(c, log, v, b) == log
  {
  }

  lemma {:induction false} SizeRead(c0: Core, log0: Log, pre: seq<byte>, c: Core, log: Log, size: seq<byte>,
                                    client: Client)
    requires Reaches(c0, log0, pre, c, log, client) && c.state.ChunkSizeStart? && GoodSize(size)
    ensures Reaches(c0, log0, pre + size, c.(state := ChunkSize, contentLength := Hex(size)), log, client)
  {
    hide Run, Inv, VisitByte, Reaches, Record, Hex, Unhex;
    var n := |size|;
    var front := size[..n - 1];
    var b := size[n - 1];
    HexFront(size);
    HexNone();
    if n == 1 {
      assert size == [b] && front == [];
      InvOf(c0, log0, pre, c, log, client);
      FirstSizeDigit(c, log, b, client);
      ThenByte(c0, log0, pre, c, log, b, VisitByte(c, b, client), client);
    } else {
      HexFront(front);
      SizeRead(c0, log0, pre, c, log, front, client);
      MoreSize(c0, log0, pre + front, c.(state := ChunkSize, contentLength := Hex(front)), log, b, client);
      assert pre + front + [b] == pre + size;
    }
  }

  lemma MoreSize(c0: Core, log0: Log, pre: seq<byte>, c: Core, log: Log, b: byte, client: Client)
    requires Reaches(c0, log0, pre, c, log, client) && c.state.ChunkSize? && c.contentLength <= HEX_LIMIT
             && Unhex(b).Some?
    ensures Reaches(c0, log0, pre + [b], c.(contentLength := c.contentLength * 16 + Unhex(b).value), log, client)
  {
    InvOf(c0, log0, pre, c, log, client);
    hide Run, Inv, VisitByte, Reaches, Record, Unhex;
    SizeDigit(c, log, b, client);
    ThenByte(c0, log0, pre, c, log, b, VisitByte(c, b, client), client);
  }

  /** Sizes that do not fit are refused at the digit that would not fit. */
  lemma SizeTooLong(c: Core, log: Log, size: seq<byte>, b: byte, client: Client)
    requires Inv(c) && c.state.ChunkSizeStart? && GoodSize(size) && Hex(size) > HEX_LIMIT && Unhex(b).Some?
    ensures var r := Run(c, log, log, size + [b], client);
            r.status.Failed? && r.core.errno == InvalidContentLength && r.rest == [b]
  {
    hide Inv, VisitByte, Record, Hex, Unhex;
    Nothing(c, log, client);
    SizeRead(c, log, [], c, log, size, client);
    assert [] + size == size;
    var c1 := c.(state := ChunkSize, contentLength := Hex(size));
    InvOf(c, log, size, c1, log, client);
    SizeDigit(c1, log, b, client);
    RunSplits(c, log, log, size, [b], client);
  }

  // ----- extension and line end -------------------------------------------------------

  lemma ExtVisits(c: Core, log: Log, b: byte, client: Client)
    requires Inv(c)
    requires (c.state.ChunkSize? && (b == SEMICOLON || b == SP)) || (c.state.ChunkParameters? && b != CR)
    ensures var v := VisitByte(c, b, client);
            v.next.Advance? && v.core == c.(state := ChunkParameters) && Record(c, log, v, b) == log
  {
  }

  lemma {:induction false} ExtRead(c0: Core, log0: Log, pre: seq<byte>, c: Core, log: Log, ext: seq<byte>,
                                   client: Client)
    requires Reaches(c0, log0, pre, c, log, client) && c.state.ChunkSize? && GoodExt(ext) && ext != []
    ensures Reaches(c0, log0, pre + ext, c.(state := ChunkParameters), log, client)
  {
    hide *;
    var n := |ext|;
    var front := ext[..n - 1];
    var b := ext[n - 1];
    if n == 1 {
      assert ext == [b];
      ExtByte(c0, log0, pre, c, log, ext, b, client);
    } else {
      ExtFront(ext);
      ExtRead(c0, log0, pre, c, log, front, client);
      assert pre + front + [b] == pre + ext;
      ExtByte(c0, log0, pre + front, c.(state := ChunkParameters), log, ext, b, client);
    }
  }

  lemma ExtFront(ext: seq<byte>)
    requires GoodExt(ext) && |ext| > 1
    ensures GoodExt(ext[..|ext| - 1])
  {
    assert forall x <- ext[..|ext| - 1] :: x in ext;
  }

  lemma ExtByte(c0: Core, log0: Log, pre: seq<byte>, c: Core, log: Log, ext: seq<byte>, b: byte, client: Client)
    requires Reaches(c0, log0, pre, c, log, client) && GoodExt(ext) && b in ext
    requires if |ext| == 1 then c.state.ChunkSize? && b == ext[0] else c.state.ChunkParameters? && b == ext[|ext| - 1]
    ensures Reaches(c0, log0, pre + [b], c.(state := ChunkParameters), log, client)
  {
    InvOf(c0, log0, pre, c, log, client);
    hide Run, Inv, VisitByte, Reaches, Record;
    ExtVisits(c, log, b, client);
    ThenByte(c0, log0, pre, c, log, b, VisitByte(c, b, client), client);
  }

  lemma SizeEndVisits(c: Core, log: Log, client: Client)
    requires Inv(c)
    ensures c.state.ChunkSize? || c.state.ChunkParameters? ==>
              var v := VisitByte(c, CR, client);
              v.next.Advance? && v.core == c.(state := ChunkSizeAlmostDone) && Record(c, log, v, CR) == log
  {
  }

  /** The parser after the line that gives a chunk's size. */
  function SizeLineDone(c: Core, size: nat): Core {
    if size == 0 then c.(state := HeaderFieldStart, contentLength := 0, flags := c.flags + {Trailing})
    else c.(state := ChunkData, contentLength := size)
  }

  lemma SizeDoneVisit(c: Core, log: Log, client: Client)
    requires Inv(c) && c.state.ChunkSizeAlmostDone?
    ensures var v := VisitByte(c, LF, client);
            v.next.Advance? && v.core == SizeLineDone(c, c.contentLength) && Record(c, log, v, LF) == log
  {
  }

  /** The line that gives a chunk's size, but for its LF. */
  lemma SizeLineCR(c0: Core, log0: Log, pre: seq<byte>, c: Core, log: Log, size: seq<byte>, ext: seq<byte>,
                   client: Client)
    requires Reaches(c0, log0, pre, c, log, client) && c.state.ChunkSizeStart? && GoodSize(size) && GoodExt(ext)
    ensures Reaches(c0, log0, pre + size + ext + [CR], c.(state := ChunkSizeAlmostDone, contentLength := Hex(size)),
                    log, client)
  {
    hide Run, Inv, VisitByte, Reaches, Record, Hex, GoodExt;
    SizeRead(c0, log0, pre, c, log, size, client);
    var c1 := c.(state := ChunkSize, contentLength := Hex(size));
    var p1 := pre + size + ext;
    if ext == [] {
      assert p1 == pre + size;
    } else {
      ExtRead(c0, log0, pre + size, c1, log, ext, client);
    }
    var c2 := if ext == [] then c1 else c1.(state := ChunkParameters);
    InvOf(c0, log0, p1, c2, log, client);
    SizeEndVisits(c2, log, client);
    ThenByte(c0, log0, p1, c2, log, CR, VisitByte(c2, CR, client), client);
  }

  lemma SizeLine(c0: Core, log0: Log, pre: seq<byte>, c: Core, log: Log, size: seq<byte>, ext: seq<byte>,
                 client: Client)
    requires Reaches(c0, log0, pre, c, log, client) && c.state.ChunkSizeStart? && GoodSize(size) && GoodExt(ext)
    ensures Reaches(c0, log0, pre + size + ext + [CR, LF], SizeLineDone(c, Hex(size)), log, client)
  {
    hide Run, Inv, VisitByte, Reaches, Record, Hex, GoodExt;
    SizeLineCR(c0, log0, pre, c, log, size, ext, client);
    var c3 := c.(state := ChunkSizeAlmostDone, contentLength := Hex(size));
    var p1 := pre + size + ext + [CR];
    InvOf(c0, log0, p1, c3, log, client);
    SizeDoneVisit(c3, log, client);
    ThenByte(c0, log0, p1, c3, log, LF, VisitByte(c3, LF, client), client);
    assert p1 + [LF] == pre + size + ext + [CR, LF];
  }

  // ----- the data ---------------------------------------------------------------------

  lemma DataEndVisits(c: Core, log: Log, client: Client)
    requires Inv(c)
    ensures c.state.ChunkDataAlmostDone? ==>
              var v := VisitByte(c, CR, client);
              v.next.Advance? && v.core == c.(state := ChunkDataDone) && Record(c, log, v, CR) == log
    ensures c.state.ChunkDataDone? ==>
              var v := VisitByte(c, LF, client);
              v.next.Advance? && v.core == c.(state := ChunkSizeStart) && Record(c, log, v, LF) == log
  {
  }

  lemma DataRead(c0: Core, log0: Log, pre: seq<byte>, c: Core, log: Log, data: seq<byte>, client: Client)
    requires Reaches(c0, log0, pre, c, log, client) && c.state.ChunkData? && |data| == c.contentLength > 0
    ensures Reaches(c0, log0, pre + data, c.(contentLength := 0, state := ChunkDataAlmostDone),
                    Deliver(log, Body, data), client)
  {
    InvOf(c0, log0, pre, c, log, client);
    var c1 := c.(contentLength := 0, state := ChunkDataAlmostDone);
    assert HttpParser.BodyOver(c) == c1;
    hide Inv, VisitByte, Record, Deliver, Commit;
    HttpParser.RunBodyEnd(c, log, log, data, |data|, client);
    assert data[..|data|] == data && data[|data|..] == [];
    Then(c0, log0, pre, c, log, data, c1, Deliver(log, Body, data), client);
  }

  lemma DataLine(c0: Core, log0: Log, pre: seq<byte>, c: Core, log: Log, data: seq<byte>, client: Client)
    requires Reaches(c0, log0, pre, c, log, client) && c.state.ChunkData? && |data| == c.contentLength > 0
    ensures Reaches(c0, log0, pre + data + [CR, LF], c.(contentLength := 0, state := ChunkSizeStart),
                    Deliver(log, Body, data), client)
  {
    hide Run, Inv, VisitByte, Reaches, Record, Deliver;
    DataRead(c0, log0, pre, c, log, data, client);
    var c1 := c.(contentLength := 0, state := ChunkDataAlmostDone);
    var l1 := Deliver(log, Body, data);
    InvOf(c0, log0, pre + data, c1, l1, client);
    DataEndVisits(c1, l1, client);
    ThenByte(c0, log0, pre + data, c1, l1, CR, VisitByte(c1, CR, client), client);
    var c2 := c1.(state := ChunkDataDone);
    InvOf(c0, log0, pre + data + [CR], c2, l1, client);
    DataEndVisits(c2, l1, client);
    ThenByte(c0, log0, pre + data + [CR], c2, l1, LF, VisitByte(c2, LF, client), client);
    assert pre + data + [CR] + [LF] == pre + data + [CR, LF];
  }

  lemma ChunkRead(c0: Core, log0: Log, pre: seq<byte>, c: Core, log: Log, chunk: Chunk, client: Client)
    requires Reaches(c0, log0, pre, c, log, client) && c.state.ChunkSizeStart? && GoodChunk(chunk)
    ensures Reaches(c0, log0, pre + PrintChunk(chunk), c.(contentLength := 0), Deliver(log, Body, chunk.payload),
                    client)
  {
    hide Run, Inv, VisitByte, Reaches, Record, Deliver, Hex, GoodSize, GoodExt;
    SizeLine(c0, log0, pre, c, log, chunk.size, chunk.ext, client);
    var c1 := c.(state := ChunkData, contentLength := |chunk.payload|);
    var p1 := pre + chunk.size + chunk.ext + [CR, LF];
    DataLine(c0, log0, p1, c1, log, chunk.payload, client);
    assert p1 + chunk.payload + [CR, LF] == pre + PrintChunk(chunk);
  }

  /** Any list of chunks is delivered as its concatenated payload. */
  lemma {:induction false} ChunksRead(c0: Core, log0: Log, pre: seq<byte>, c: Core, log: Log, cs: seq<Chunk>,
                                      client: Client)
    requires Reaches(c0, log0, pre, c, log, client) && c.state.ChunkSizeStart? && forall x <- cs :: GoodChunk(x)
    ensures Reaches(c0, log0, pre + PrintChunks(cs), if cs == [] then c
                    else c.(contentLength := 0), BodyLog(log, Payload(cs)), client)
    ensures cs != [] ==> Payload(cs) != []
  {
    hide *;
    if cs == [] {
      ChunksNone(log);
      assert pre + PrintChunks(cs) == pre;
    } else {
      var front := cs[..|cs| - 1];
      var last := cs[|cs| - 1];
      assert last in cs && forall x <- front :: x in cs;
      ChunksRead(c0, log0, pre, c, log, front, client);
      var c1 := if front == [] then c else c.(contentLength := 0);
      ChunkRead(c0, log0, pre + PrintChunks(front), c1, BodyLog(log, Payload(front)), last, client);
      ChunksMore(cs, log);
      assert pre + PrintChunks(front) + PrintChunk(last) == pre + PrintChunks(cs);
    }
  }

  lemma ChunksNone(log: Log)
    ensures PrintChunks([]) == [] && BodyLog(log, Payload([])) == log
  {
  }

  lemma ChunksMore(cs: seq<Chunk>, log: Log)
    requires cs != [] && forall x <- cs :: GoodChunk(x)
    requires |cs| > 1 ==> Payload(cs[..|cs| - 1]) != []
    ensures var front, last := cs[..|cs| - 1], cs[|cs| - 1];
            && PrintChunks(cs) == PrintChunks(front) + PrintChunk(last) && Payload(cs) != []
            && Deliver(BodyLog(log, Payload(front)), Body, last.payload) == BodyLog(log, Payload(cs))
  {
    hide Deliver, PrintChunk;
    var front, last := cs[..|cs| - 1], cs[|cs| - 1];
    assert last in cs;
    if front == [] {
      assert Payload(cs) == [] + last.payload == last.payload;
    } else {
      DeliverJoins(log, Body, Payload(front), last.payload);
    }
  }

  /** A whole chunked body with its last chunk and trailers, whatever follows it. */
  lemma ChunkedBodyRead(c0: Core, log0: Log, pre: seq<byte>, c: Core, log: Log, cs: seq<Chunk>,
                        size: seq<byte>, ext: seq<byte>, trailers: seq<Header>, end: Eol, client: Client)
    requires Reaches(c0, log0, pre, c, log, client) && c.state.ChunkSizeStart? && (forall x <- cs :: GoodChunk(x))
    requires GoodSize(size) && Hex(size) == 0 && GoodExt(ext) && forall h <- trailers :: GoodHeader(h)
    ensures var c1 := Settle(AfterHeaders(SizeLineDone(c, 0), trailers)).(state := HeadersAlmostDone);
            Reaches(c0, log0, pre + PrintChunks(cs) + (size + ext + [CR, LF]) + PrintHeaders(trailers) + PrintEol(end),
                    Completed(c1, client),
                    HeaderLog(BodyLog(log, Payload(cs)), trailers) + [Notified(MessageComplete)], client)
  {
    hide Run, Inv, VisitByte, Reaches, Record, Deliver, Hex, GoodSize, GoodExt, GoodHeader, GoodChunk, Payload,
         PrintChunks, PrintHeaders, HeaderLog, Completed, AfterHeaders, Settle, Effects;
    ChunksRead(c0, log0, pre, c, log, cs, client);
    var c1 := if cs == [] then c else c.(contentLength := 0);
    var p1 := pre + PrintChunks(cs);
    var l1 := BodyLog(log, Payload(cs));
    SizeLine(c0, log0, p1, c1, l1, size, ext, client);
    var c2 := SizeLineDone(c, 0);
    var p2 := p1 + (size + ext + [CR, LF]);
    assert p1 + size + ext + [CR, LF] == p2;
    assert SizeLineDone(c1, 0) == c2;
    HeadersRead(c0, log0, p2, c2, l1, trailers, client);
    var c3 := AfterHeaders(c2, trailers);
    var l3 :| Reaches(c0, log0, p2 + PrintHeaders(trailers), c3, l3, client)
              && Settled(c3, l3) == HeaderLog(Settled(c2, l1), trailers);
    TrailersKeepTrailing(c2, trailers);
    TrailerEnd(c0, log0, p2 + PrintHeaders(trailers), c3, l3, end, client);
  }

  lemma {:induction false} EffectsGrow(f: Framing, hs: seq<Header>)
    requires forall h <- hs :: GoodHeader(h)
    ensures f.flags <= Effects(f, hs).flags
    ensures Trailing !in f.flags ==> Trailing !in Effects(f, hs).flags
  {
    hide GoodHeader;
    if hs != [] {
      EffectsGrow(f, hs[..|hs| - 1]);
      EffectGrows(Effects(f, hs[..|hs| - 1]), hs[|hs| - 1]);
    }
  }

  lemma EffectGrows(f: Framing, h: Header)
    requires GoodHeader(h)
    ensures f.flags <= Effect(f, h).flags
    ensures Trailing !in f.flags ==> Trailing !in Effect(f, h).flags
  {
    HttpFolds.FoldedFlagsAre(h.value, h.folds);
    hide IsKeyword, NameClass, Num, FoldedFlags;
  }

  lemma TrailersKeepTrailing(c: Core, hs: seq<Header>)
    requires c.state.HeaderFieldStart? && Trailing in c.flags && forall h <- hs :: GoodHeader(h)
    ensures Trailing in Settle(AfterHeaders(c, hs)).flags
  {
    hide GoodHeader, AfterHeaders, Effects;
    HeadersEffect(c, hs);
    EffectsGrow(FramingOf(Settle(c)), hs);
  }
}
