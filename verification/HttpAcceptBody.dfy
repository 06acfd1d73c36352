/** What the parser accepts of a chunked body: bytes that are read without an error up to the end of the
    message are printed chunks, a last size line and printed trailers. */
module HttpAcceptBody {
  import opened HttpTypes
  import opened HttpVisit
  import opened HttpRun
  import opened HttpMessage
  import opened HttpRoundTrip
  import opened HttpChunkRead
  import opened HttpAcceptLine
  import opened HttpAccept

  /** The chunks before, and the parts of the one that is being read. */
  datatype ChunkParts = ChunkParts(done: seq<Chunk>, size: seq<byte>, ext: seq<byte>, payload: seq<byte>)

  function SizeText(p: ChunkParts): seq<byte> { PrintChunks(p.done) + p.size + p.ext }

  function DataText(p: ChunkParts): seq<byte> { SizeText(p) + [CR, LF] + p.payload }

  /** The bytes of the body before the state. */
  function ChunkText(st: State, p: ChunkParts): seq<byte> {
    match st
    case ChunkSizeStart => PrintChunks(p.done)
    case ChunkSize => PrintChunks(p.done) + p.size
    case ChunkParameters => SizeText(p)
    case ChunkSizeAlmostDone => SizeText(p) + [CR]
    case ChunkData => DataText(p)
    case ChunkDataAlmostDone => DataText(p)
    case ChunkDataDone => DataText(p) + [CR]
    case _ => SizeText(p) + [CR, LF]
  }

  ghost predicate ChunkFits(c: Core, p: ChunkParts) {
    var st := c.state;
    && (InChunks(st) || st.HeaderFieldStart?) && (forall x <- p.done :: GoodChunk(x))
    && (st.ChunkSize? || st.ChunkParameters? || st.ChunkSizeAlmostDone? ==>
          GoodSize(p.size) && Hex(p.size) == c.contentLength)
    && (st.ChunkParameters? ==> p.ext != []) && (st.ChunkSize? ==> p.ext == [])
    && (!st.ChunkSizeStart? ==> GoodSize(p.size) && GoodExt(p.ext))
    && (st.ChunkData? ==> Hex(p.size) == |p.payload| + c.contentLength && c.contentLength > 0)
    && (st.ChunkDataAlmostDone? || st.ChunkDataDone? ==> Hex(p.size) == |p.payload| > 0)
    && (st.HeaderFieldStart? ==> Hex(p.size) == 0)
  }

  lemma HexOne(b: byte)
    requires Unhex(b).Some?
    ensures GoodSize([b]) && Hex([b]) == Unhex(b).value
  {
    assert [b][..0] == [];
  }

  lemma HexMore(size: seq<byte>, b: byte)
    requires GoodSize(size) && Unhex(b).Some? && Hex(size) <= HEX_LIMIT
    ensures GoodSize(size + [b]) && Hex(size + [b]) == Hex(size) * 16 + Unhex(b).value < NO_LENGTH
  {
    assert (size + [b])[..|size|] == size;
    hide Unhex;
    HexFront(size + [b]);
  }

  lemma SizeStartStep(c: Core, p: ChunkParts, b: byte, client: Client) returns (p2: ChunkParts)
    requires ChunkFits(c, p) && c.state.ChunkSizeStart? && VisitBody(c, b, client).next.Advance?
    ensures var c2 := VisitBody(c, b, client).core;
            ChunkFits(c2, p2) && ChunkText(c2.state, p2) == ChunkText(c.state, p) + [b]
  {
    p2 := p.(size := [b], ext := [], payload := []);
    HexOne(b);
    hide GoodChunk, PrintChunks, Hex, Unhex, GoodSize;
  }

  lemma SizeNext(c: Core, b: byte, client: Client)
    requires Inv(c) && c.state.ChunkSize? && VisitBody(c, b, client).next.Advance?
    ensures var c2 := VisitBody(c, b, client).core;
            if b == CR then c2 == c.(state := ChunkSizeAlmostDone)
            else if Unhex(b).Some?
            then c.contentLength <= HEX_LIMIT && c2 == c.(contentLength := c.contentLength * 16 + Unhex(b).value)
            else (b == SEMICOLON || b == SP) && c2 == c.(state := ChunkParameters)
  {
    if Unhex(b).Some? && c.contentLength <= HEX_LIMIT {
      assert Unhex(b).value <= 15;
      HexNoWrap(c.contentLength, Unhex(b).value);
    }
  }

  lemma DigitFits(c: Core, p: ChunkParts, b: byte, c2: Core)
    requires ChunkFits(c, p) && c.state.ChunkSize? && Unhex(b).Some? && c.contentLength <= HEX_LIMIT
    requires c2 == c.(contentLength := c.contentLength * 16 + Unhex(b).value)
    ensures var p2 := p.(size := p.size + [b]);
            ChunkFits(c2, p2) && ChunkText(c2.state, p2) == ChunkText(c.state, p) + [b]
  {
    hide GoodChunk, PrintChunks, Hex, GoodSize, Unhex;
    HexMore(p.size, b);
  }

  lemma LineFits(c: Core, p: ChunkParts, c2: Core)
    requires ChunkFits(c, p) && c.state.ChunkSize? && c2 == c.(state := ChunkSizeAlmostDone)
    ensures ChunkFits(c2, p) && ChunkText(c2.state, p) == ChunkText(c.state, p) + [CR]
  {
    hide GoodChunk, PrintChunks, Hex, GoodSize;
    assert SizeText(p) == PrintChunks(p.done) + p.size;
  }

  lemma ExtFits(c: Core, p: ChunkParts, b: byte, c2: Core)
    requires ChunkFits(c, p) && c.state.ChunkSize? && (b == SEMICOLON || b == SP)
    requires c2 == c.(state := ChunkParameters)
    ensures var p2 := p.(ext := [b]); ChunkFits(c2, p2) && ChunkText(c2.state, p2) == ChunkText(c.state, p) + [b]
  {
    hide GoodChunk, PrintChunks, Hex, GoodSize;
  }

  lemma SizeStep(c: Core, p: ChunkParts, b: byte, client: Client) returns (p2: ChunkParts)
    requires Inv(c) && ChunkFits(c, p) && c.state.ChunkSize? && VisitBody(c, b, client).next.Advance?
    ensures var c2 := VisitBody(c, b, client).core;
            ChunkFits(c2, p2) && ChunkText(c2.state, p2) == ChunkText(c.state, p) + [b]
  {
    SizeNext(c, b, client);
    hide Inv, VisitBody, ChunkFits, ChunkText, Unhex;
    var c2 := VisitBody(c, b, client).core;
    if b == CR {
      p2 := p;
      LineFits(c, p, c2);
    } else if Unhex(b).Some? {
      p2 := p.(size := p.size + [b]);
      DigitFits(c, p, b, c2);
    } else {
      p2 := p.(ext := [b]);
      ExtFits(c, p, b, c2);
    }
  }

  lemma ExtStep(c: Core, p: ChunkParts, b: byte, client: Client) returns (p2: ChunkParts)
    requires ChunkFits(c, p) && c.state.ChunkParameters? && VisitBody(c, b, client).next.Advance?
    ensures var c2 := VisitBody(c, b, client).core;
            ChunkFits(c2, p2) && ChunkText(c2.state, p2) == ChunkText(c.state, p) + [b]
  {
    p2 := if b == CR then p else p.(ext := p.ext + [b]);
    hide GoodChunk, PrintChunks, Hex, GoodSize;
  }

  lemma SizeEndStep(c: Core, p: ChunkParts, b: byte, client: Client) returns (p2: ChunkParts)
    requires ChunkFits(c, p) && c.state.ChunkSizeAlmostDone? && VisitBody(c, b, client).next.Advance?
    ensures var c2 := VisitBody(c, b, client).core;
            ChunkFits(c2, p2) && ChunkText(c2.state, p2) == ChunkText(c.state, p) + [b]
  {
    p2 := p.(payload := []);
    hide GoodChunk, PrintChunks, Hex, GoodSize, GoodExt;
    assert SizeText(p) + [CR] + [LF] == SizeText(p) + [CR, LF] + [];
  }

  lemma DataStep(c: Core, p: ChunkParts, b: byte, client: Client) returns (p2: ChunkParts)
    requires Inv(c) && ChunkFits(c, p) && c.state.ChunkData? && VisitBody(c, b, client).next.Advance?
    ensures var c2 := VisitBody(c, b, client).core;
            ChunkFits(c2, p2) && ChunkText(c2.state, p2) == ChunkText(c.state, p) + [b]
  {
    p2 := p.(payload := p.payload + [b]);
    hide GoodChunk, PrintChunks, Hex, GoodSize, GoodExt;
  }

  lemma DataEndStep(c: Core, p: ChunkParts, b: byte, client: Client)
    requires ChunkFits(c, p) && c.state.ChunkDataAlmostDone? && VisitBody(c, b, client).next.Advance?
    ensures var c2 := VisitBody(c, b, client).core;
            ChunkFits(c2, p) && ChunkText(c2.state, p) == ChunkText(c.state, p) + [b]
  {
    hide GoodChunk, PrintChunks, Hex, GoodSize, GoodExt, DataText;
  }

  lemma DataDoneNext(c: Core, b: byte, client: Client)
    requires c.state.ChunkDataDone? && VisitBody(c, b, client).next.Advance?
    ensures b == LF && VisitBody(c, b, client).core == c.(state := ChunkSizeStart)
  {
  }

  lemma WholeChunk(c: Core, p: ChunkParts) returns (chunk: Chunk)
    requires ChunkFits(c, p) && c.state.ChunkDataDone?
    ensures GoodChunk(chunk) && (forall x <- p.done :: GoodChunk(x))
    ensures ChunkText(c.state, p) + [LF] == PrintChunks(p.done) + PrintChunk(chunk)
  {
    chunk := Chunk(p.size, p.ext, p.payload);
    hide PrintChunks, Hex, GoodSize, GoodExt;
    assert PrintChunks(p.done) + PrintChunk(chunk) == DataText(p) + [CR] + [LF];
  }

  lemma DataDoneStep(c: Core, p: ChunkParts, b: byte, client: Client) returns (p2: ChunkParts)
    requires ChunkFits(c, p) && c.state.ChunkDataDone? && VisitBody(c, b, client).next.Advance?
    ensures var c2 := VisitBody(c, b, client).core;
            ChunkFits(c2, p2) && ChunkText(c2.state, p2) == ChunkText(c.state, p) + [b]
  {
    DataDoneNext(c, b, client);
    hide VisitBody, ChunkFits, ChunkText, GoodChunk;
    var chunk := WholeChunk(c, p);
    p2 := p.(done := p.done + [chunk]);
    ChunksAdd(p.done, chunk);
    ChunkStarts(c.(state := ChunkSizeStart), p2);
  }

  lemma ChunkStarts(c: Core, p: ChunkParts)
    requires c.state.ChunkSizeStart? && forall x <- p.done :: GoodChunk(x)
    ensures ChunkFits(c, p) && ChunkText(c.state, p) == PrintChunks(p.done)
  {
    hide GoodChunk;
  }

  lemma ChunksAdd(cs: seq<Chunk>, chunk: Chunk)
    ensures PrintChunks(cs + [chunk]) == PrintChunks(cs) + PrintChunk(chunk)
  {
    assert (cs + [chunk])[..|cs|] == cs;
  }

  lemma ChunkVisits(c: Core, b: byte, client: Client)
    requires Inv(c) && InChunks(c.state)
    ensures VisitByte(c, b, client) == VisitBody(c, b, client) && !VisitByte(c, b, client).next.Again?
  {
  }

  lemma ChunkStep(c: Core, p: ChunkParts, b: byte, client: Client) returns (p2: ChunkParts)
    requires Inv(c) && InChunks(c.state) && ChunkFits(c, p) && VisitByte(c, b, client).next.Advance?
    ensures var c2 := VisitByte(c, b, client).core;
            ChunkFits(c2, p2) && ChunkText(c2.state, p2) == ChunkText(c.state, p) + [b]
  {
    hide Inv, VisitByte, VisitBody, ChunkFits, ChunkText;
    ChunkVisits(c, b, client);
    match c.state
    case ChunkSizeStart => p2 := SizeStartStep(c, p, b, client);
    case ChunkSize => p2 := SizeStep(c, p, b, client);
    case ChunkParameters => p2 := ExtStep(c, p, b, client);
    case ChunkSizeAlmostDone => p2 := SizeEndStep(c, p, b, client);
    case ChunkData => p2 := DataStep(c, p, b, client);
    case ChunkDataAlmostDone =>
      DataEndStep(c, p, b, client);
      p2 := p;
    case _ => p2 := DataDoneStep(c, p, b, client);
  }

  /** Chunks that are read without an error are printed ones, up to the last size line. */
  lemma {:induction false} ChunksOnly(c: Core, log: Log, s: seq<byte>, c1: Core, log1: Log, client: Client)
    returns (p: ChunkParts)
    requires Reaches(c, log, s, c1, log1, client) && c.state.ChunkSizeStart?
    requires forall n :: 0 <= n < |s| ==> InChunks(StateAt(c, log, s[..n], client))
    ensures ChunkFits(c1, p) && s == ChunkText(c1.state, p)
  {
    if s == [] {
      p := ChunkParts([], [], [], []);
      Nothing(c, log, client);
      Determined(c, log, s, c1, log1, c, log, client);
    } else {
      var n := |s| - 1;
      var front, b := s[..n], s[n];
      assert s == front + [b];
      var c0, log0 := Front(c, log, front, [b], c1, log1, client);
      hide Inv, VisitByte, ChunkFits, ChunkText, Record;
      assert forall k :: 0 <= k < n ==> front[..k] == s[..k];
      p := ChunksOnly(c, log, front, c0, log0, client);
      assert c0.state == StateAt(c, log, s[..n], client);
      ChunkVisits(c0, b, client);
      OneByte(c0, log0, b, c1, log1, client);
      p := ChunkStep(c0, p, b, client);
    }
  }

  /** A chunked body that is read without an error to its end is a printed one. */
  lemma ChunkedAccepted(c: Core, log: Log, s: seq<byte>, c2: Core, log2: Log, client: Client)
    returns (cs: seq<Chunk>, size: seq<byte>, ext: seq<byte>, trailers: seq<Header>, end: Eol)
    requires Reaches(c, log, s, c2, log2, client) && Inv(c) && c.state.ChunkSizeStart?
    requires Leaves(InChunks, c, log, s, client)
    ensures (forall x <- cs :: GoodChunk(x)) && GoodSize(size) && Hex(size) == 0 && GoodExt(ext)
            && GoodHeaders(trailers)
    ensures s == PrintBody(InPieces(cs, size, ext, trailers, end))
  {
    hide Inv, Run, StateAt, HeadersFit, HeadersText, ChunkText, ChunkFits, Reaches, Leaves;
    var a, b, c1, log1 := Split(InChunks, c, log, s, c2, log2, client);
    var l := ChunksOnly(c, log, a, c1, log1, client);
    ChunksDone(c1, l);
    var p := HeadersOnly(c1, log1, b, c2, log2, client);
    cs, size, ext, trailers, end := l.done, l.size, l.ext, p.done, p.current.eol;
    assert PrintBody(InPieces(cs, size, ext, trailers, end)) == a + b;
  }

  lemma ChunksDone(c: Core, p: ChunkParts)
    requires ChunkFits(c, p) && InHeaders(c.state)
    ensures c.state.HeaderFieldStart? && (forall x <- p.done :: GoodChunk(x)) && GoodSize(p.size) && Hex(p.size) == 0
            && GoodExt(p.ext)
    ensures ChunkText(c.state, p) == PrintChunks(p.done) + (p.size + p.ext + [CR, LF])
  {
    hide GoodChunk, PrintChunks, Hex, GoodSize, GoodExt;
  }
}
