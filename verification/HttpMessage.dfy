/** Well-formed response messages as bytes, and what they mean, independently of the parser. */
module HttpMessage {
  import opened HttpTypes

  function LowerAll(s: seq<byte>): seq<byte> {
    seq(|s|, i requires 0 <= i < |s| => Lower(s[i]))
  }

  /** A header name in the parser's case-folded form. */
  function Tokens(s: seq<byte>): seq<byte> {
    seq(|s|, i requires 0 <= i < |s| => Token(s[i]))
  }

  predicate Digits(s: seq<byte>) { |s| > 0 && forall b <- s :: IsNum(b) }

  function Dec(s: seq<byte>): nat
    requires forall b <- s :: IsNum(b)
  {
    if s == [] then 0 else assert IsNum(s[|s| - 1]); Dec(s[..|s| - 1]) * 10 + (s[|s| - 1] as int - 48)
  }

  predicate HexDigits(s: seq<byte>) { |s| > 0 && forall b <- s :: Unhex(b).Some? }

  function Hex(s: seq<byte>): nat
    requires forall b <- s :: Unhex(b).Some?
  {
    if s == [] then 0 else Hex(s[..|s| - 1]) * 16 + Unhex(s[|s| - 1]).value
  }

  // ----- lines ------------------------------------------------------------------------

  /** How a line ends: the parser takes a bare line feed for CR LF, except in chunk lines. */
  datatype Eol = CrLf | BareLf

  function PrintEol(e: Eol): (s: seq<byte>)
    ensures |s| <= 2
  {
    if e.CrLf? then [CR, LF] else [LF]
  }

  // ----- headers ----------------------------------------------------------------------

  /** What can stand between the colon and the value: a blank, or a line end with a blank behind it. */
  datatype Gap = Space(b: byte) | NextLine(eol: Eol, b: byte)

  /** The value goes on in the next line, that begins with a blank; eol ends the line before. */
  datatype Fold = Fold(eol: Eol, b: byte, text: seq<byte>)

  datatype Header = Header(name: seq<byte>, pad: seq<Gap>, value: seq<byte>, folds: seq<Fold>, eol: Eol)

  predicate GoodName(name: seq<byte>) { |name| > 0 && forall b <- name :: Token(b) != 0 }

  predicate Blank(b: byte) { b == SP || b == HT }

  predicate GoodText(value: seq<byte>) {
    (forall b <- value :: b != CR && b != LF) && (value != [] ==> !Blank(value[0]))
  }

  predicate GoodPad(pad: seq<Gap>) { forall g <- pad :: Blank(g.b) }

  predicate GoodFold(f: Fold) { Blank(f.b) && CR !in f.text && LF !in f.text }

  /** The header kinds the parser acts on, by case-folded name. */
  function NameClass(name: seq<byte>): HeaderState {
    var n := Tokens(name);
    if n == CONNECTION || n == PROXY_CONNECTION then ConnectionHeader
    else if n == CONTENT_LENGTH then ContentLengthHeader
    else if n == TRANSFER_ENCODING then TransferEncodingHeader
    else if n == UPGRADE then UpgradeHeader
    else General
  }

  /** The value is keyword k, in any case, with spaces after it. */
  predicate IsKeyword(value: seq<byte>, k: seq<byte>) {
    |k| <= |value| && LowerAll(value[..|k|]) == k && forall b <- value[|k|..] :: b == SP
  }

  /** A length is accepted when the value without its last digit is at most this. */
  const DEC_LIMIT: nat := (NO_LENGTH - 10) / 10
  const HEX_LIMIT: nat := (NO_LENGTH - 16) / 16

  /** A written length: a digit, then digits and spaces. */
  predicate Numeric(s: seq<byte>) { |s| > 0 && IsNum(s[0]) && forall b <- s :: IsNum(b) || b == SP }

  /** The number that the digits stand for; spaces are skipped. */
  function Num(s: seq<byte>): nat
    requires forall b <- s :: IsNum(b) || b == SP
  {
    if s == [] then 0
    else
      var front, b := s[..|s| - 1], s[|s| - 1];
      assert b in s && (IsNum(b) || b == SP);
      if b == SP then Num(front) else Num(front) * 10 + (b as int - 48)
  }

  /** The number before some digit but the first is over the limit. */
  predicate TooLong(s: seq<byte>)
    requires forall b <- s :: IsNum(b) || b == SP
  {
    |s| > 1 && (TooLong(s[..|s| - 1]) || (s[|s| - 1] != SP && Num(s[..|s| - 1]) > DEC_LIMIT))
  }

  /** A length is on one line; a value that goes on in other lines is there in the first. */
  predicate GoodHeader(h: Header) {
    && GoodName(h.name) && GoodPad(h.pad) && GoodText(h.value) && (forall f <- h.folds :: GoodFold(f))
    && (h.value == [] ==> h.folds == [])
    && (NameClass(h.name).ContentLengthHeader? && h.value != [] ==>
          Numeric(h.value) && !TooLong(h.value) && h.folds == [])
  }

  // ----- Connection lists -------------------------------------------------------------

  /** The elements between the commas of a value. */
  function Elements(value: seq<byte>): (es: seq<seq<byte>>)
    ensures |es| > 0
  {
    if value == [] then [[]]
    else
      var front := Elements(value[..|value| - 1]);
      var b := value[|value| - 1];
      if b == COMMA then front + [[]] else front[..|front| - 1] + [front[|front| - 1] + [b]]
  }

  /** How an element is read: as the first one, as one after a comma that was noticed, not at all
      because its comma was not noticed, or not at all because the rest of the value is not. */
  datatype Reading = First | Fresh | Swallowed | Lost

  /** What is skipped before an element: spaces, and zeros, that fold to them. Tabs are not. */
  predicate IsSpace(b: byte) { Lower(b) == SP }

  function Word(e: seq<byte>): seq<byte> {
    if e != [] && IsSpace(e[0]) then Word(e[1..]) else e
  }

  /** A proper beginning of a keyword: a comma behind it is taken for a mismatching byte. */
  predicate Beginning(w: seq<byte>) {
    var l := LowerAll(w);
    l < CLOSE || l < KEEP_ALIVE || l < UPGRADE
  }

  /** No word: the element is empty, or begins with a byte that is no token, like a tab. */
  predicate NoWord(e: seq<byte>) {
    Word(e) == [] || Token(Lower(Word(e)[0])) == 0
  }

  /** How the last of the elements is read. */
  function ReadingOf(es: seq<seq<byte>>): Reading
    requires |es| > 0
  {
    if |es| == 1 then First
    else
      var before := es[..|es| - 1];
      var e := es[|es| - 2];
      match ReadingOf(before)
      case First => if Beginning(e) then Swallowed else Fresh
      case Fresh => if NoWord(e) then Lost else if Beginning(Word(e)) then Swallowed else Fresh
      case Swallowed => Fresh
      case Lost => Lost
  }

  function KeywordFlags(w: seq<byte>): set<Flag> {
    if IsKeyword(w, CLOSE) then {ConnClose}
    else if IsKeyword(w, KEEP_ALIVE) then {ConnKeepAlive}
    else if IsKeyword(w, UPGRADE) then {ConnUpgrade}
    else {}
  }

  /** What the last of the elements tells. */
  function ElementFlags(es: seq<seq<byte>>): set<Flag>
    requires |es| > 0
  {
    match ReadingOf(es)
    case First => KeywordFlags(es[|es| - 1])
    case Fresh => KeywordFlags(Word(es[|es| - 1]))
    case _ => {}
  }

  function ListFlags(es: seq<seq<byte>>): set<Flag> {
    if es == [] then {} else ListFlags(es[..|es| - 1]) + ElementFlags(es)
  }

  /** The value ends where an element can begin: behind a comma that is noticed, but for spaces. */
  predicate OpenEnd(es: seq<seq<byte>>)
    requires |es| > 0
  {
    ReadingOf(es).Fresh? && Word(es[|es| - 1]) == []
  }

  /** What a list tells that goes on in other lines: a line end is as a space where an element can
      begin; anywhere else the element is not heard, nor is anything behind it. */
  function FoldedFlags(value: seq<byte>, folds: seq<Fold>): set<Flag>
    decreases |folds|
  {
    var es := Elements(value);
    if folds == [] then ListFlags(es)
    else if OpenEnd(es) then FoldedFlags(value + [SP] + folds[0].text, folds[1..])
    else ListFlags(es[..|es| - 1])
  }

  // ----- what headers mean ------------------------------------------------------------

  datatype Framing = Framing(flags: set<Flag>, length: nat)

  /** What a non-empty value of a header of this class tells about the message. */
  function ClassEffect(f: Framing, class_: HeaderState, value: seq<byte>, folds: seq<Fold>): Framing
    requires class_.ContentLengthHeader? ==> forall b <- value :: IsNum(b) || b == SP
  {
    match class_
    case ContentLengthHeader => f.(length := Num(value))
    case TransferEncodingHeader =>
      if IsKeyword(value, CHUNKED) && folds == [] then f.(flags := f.flags + {Chunked}) else f
    case ConnectionHeader => f.(flags := f.flags + FoldedFlags(value, folds))
    case UpgradeHeader => f.(flags := f.flags + {UpgradeSeen})
    case _ => f
  }

  /** What a header tells about the message. */
  function Effect(f: Framing, h: Header): Framing
    requires GoodHeader(h)
  {
    if h.value == [] then f else ClassEffect(f, NameClass(h.name), h.value, h.folds)
  }

  function Effects(f: Framing, hs: seq<Header>): Framing
    requires forall h <- hs :: GoodHeader(h)
  {
    if hs == [] then f else Effect(Effects(f, hs[..|hs| - 1]), hs[|hs| - 1])
  }

  function PrintGap(g: Gap): seq<byte> {
    match g
    case Space(b) => [b]
    case NextLine(eol, b) => PrintEol(eol) + [b]
  }

  function PrintPad(pad: seq<Gap>): seq<byte> {
    if pad == [] then [] else PrintPad(pad[..|pad| - 1]) + PrintGap(pad[|pad| - 1])
  }

  function PrintFold(f: Fold): seq<byte> { PrintEol(f.eol) + [f.b] + f.text }

  function PrintFolds(fs: seq<Fold>): seq<byte> {
    if fs == [] then [] else PrintFolds(fs[..|fs| - 1]) + PrintFold(fs[|fs| - 1])
  }

  /** The value with its other lines, line ends left out. */
  function WholeValue(value: seq<byte>, fs: seq<Fold>): seq<byte> {
    if fs == [] then value else WholeValue(value, fs[..|fs| - 1]) + [fs[|fs| - 1].b] + fs[|fs| - 1].text
  }

  function PrintHeader(h: Header): seq<byte> {
    h.name + [COLON] + PrintPad(h.pad) + (h.value + PrintFolds(h.folds)) + PrintEol(h.eol)
  }

  function PrintHeaders(hs: seq<Header>): seq<byte> {
    if hs == [] then [] else PrintHeaders(hs[..|hs| - 1]) + PrintHeader(hs[|hs| - 1])
  }

  function HeaderLog(log: Log, hs: seq<Header>): Log {
    if hs == [] then log
    else
      var h := hs[|hs| - 1];
      Deliver(Deliver(HeaderLog(log, hs[..|hs| - 1]), Field, h.name), Value, WholeValue(h.value, h.folds))
  }

  // ----- bodies -----------------------------------------------------------------------

  /** size: the written length; ext: chunk extension with its leading ';' or ' ', or nothing. */
  datatype Chunk = Chunk(size: seq<byte>, ext: seq<byte>, payload: seq<byte>)

  predicate GoodExt(ext: seq<byte>) {
    ext == [] || ((ext[0] == SEMICOLON || ext[0] == SP) && CR !in ext)
  }

  predicate GoodSize(size: seq<byte>) { HexDigits(size) && Hex(size[..|size| - 1]) <= HEX_LIMIT }

  predicate GoodChunk(c: Chunk) {
    GoodSize(c.size) && Hex(c.size) == |c.payload| > 0 && GoodExt(c.ext)
  }

  function PrintChunk(c: Chunk): seq<byte> { c.size + c.ext + [CR, LF] + c.payload + [CR, LF] }

  function PrintChunks(cs: seq<Chunk>): seq<byte> {
    if cs == [] then [] else PrintChunks(cs[..|cs| - 1]) + PrintChunk(cs[|cs| - 1])
  }

  function Payload(cs: seq<Chunk>): seq<byte> {
    if cs == [] then [] else Payload(cs[..|cs| - 1]) + cs[|cs| - 1].payload
  }

  // ----- messages ---------------------------------------------------------------------

  datatype MessageBody =
    | NoBody
    | Identity(bytes: seq<byte>)
    | InPieces(chunks: seq<Chunk>, lastSize: seq<byte>, lastExt: seq<byte>, trailers: seq<Header>, end: Eol)
    | UntilClose(bytes: seq<byte>)

  /** The end of a status line: right behind the code, or behind a space and a reason, that can be empty. */
  datatype Tail = NoReason(eol: Eol) | Reason(text: seq<byte>, eol: Eol)

  /** lead: line ends before the message. gap: further spaces before the code. empty: the empty line. */
  datatype Response = Response(
    lead: seq<byte>, major: seq<byte>, minor: seq<byte>, gap: nat, code: seq<byte>, tail: Tail,
    headers: seq<Header>, empty: Eol, body: MessageBody)

  function ReasonOf(t: Tail): seq<byte> { if t.NoReason? then [] else t.text }

  predicate GoodLead(lead: seq<byte>) { forall b <- lead :: b == CR || b == LF }

  predicate GoodNumber(s: seq<byte>) { Digits(s) && Dec(s) <= 999 }

  predicate GoodReason(r: seq<byte>) { forall b <- r :: b != CR && b != LF }

  predicate GoodHeaders(hs: seq<Header>) { forall h <- hs :: GoodHeader(h) }

  /** The framing the headers of a response announce. */
  function Announced(m: Response): Framing
    requires GoodHeaders(m.headers)
  {
    Effects(Framing({}, NO_LENGTH), m.headers)
  }

  predicate BodylessStatus(status: nat) { status / 100 == 1 || status == 204 || status == 304 }

  /** The body is the one that the headers announce. */
  predicate BodyFits(m: Response)
    requires GoodHeaders(m.headers) && GoodNumber(m.code)
  {
    var f := Announced(m);
    match m.body
    case InPieces(cs, size, ext, trailers, _) =>
      && Chunked in f.flags
      && (forall c <- cs :: GoodChunk(c)) && GoodSize(size) && Hex(size) == 0 && GoodExt(ext) && GoodHeaders(trailers)
    case Identity(bytes) => Chunked !in f.flags && f.length == |bytes| && 0 < f.length != NO_LENGTH
    case NoBody => Chunked !in f.flags && (f.length == 0 || (f.length == NO_LENGTH && BodylessStatus(Dec(m.code))))
    case UntilClose(_) => Chunked !in f.flags && f.length == NO_LENGTH && !BodylessStatus(Dec(m.code))
  }

  predicate GoodHead(m: Response) {
    && GoodLead(m.lead) && GoodNumber(m.major) && GoodNumber(m.minor) && GoodNumber(m.code)
    && GoodReason(ReasonOf(m.tail)) && GoodHeaders(m.headers)
  }

  predicate GoodResponse(m: Response) {
    && GoodHead(m) && BodyFits(m)
    && !(UpgradeSeen in Announced(m).flags && ConnUpgrade in Announced(m).flags)
  }

  /** The connection stays usable after the response. */
  predicate Persistent(m: Response)
    requires GoodResponse(m)
  {
    var f := Announced(m);
    var g := match m.body
             case InPieces(_, _, _, trailers, _) => Effects(Framing(f.flags + {Trailing}, 0), trailers).flags
             case _ => f.flags;
    !m.body.UntilClose? && (if Dec(m.major) > 0 && Dec(m.minor) > 0 then ConnClose !in g else ConnKeepAlive in g)
  }

  function Spaces(n: nat): (s: seq<byte>)
    ensures |s| == n
  {
    if n == 0 then [] else Spaces(n - 1) + [SP]
  }

  function PrintTail(t: Tail): seq<byte> {
    if t.NoReason? then PrintEol(t.eol) else [SP] + t.text + PrintEol(t.eol)
  }

  function PrintStatusLine(major: seq<byte>, minor: seq<byte>, gap: nat, code: seq<byte>, tail: Tail): seq<byte> {
    [72, 84, 84, 80, SLASH] + major + [DOT] + minor + [SP] + Spaces(gap) + code + PrintTail(tail)
  }

  function PrintBody(b: MessageBody): seq<byte> {
    match b
    case NoBody => []
    case Identity(bytes) => bytes
    case InPieces(cs, size, ext, trailers, end) =>
      PrintChunks(cs) + (size + ext + [CR, LF]) + PrintHeaders(trailers) + PrintEol(end)
    case UntilClose(bytes) => bytes
  }

  function PrintResponse(m: Response): seq<byte> {
    m.lead + PrintStatusLine(m.major, m.minor, m.gap, m.code, m.tail) + PrintHeaders(m.headers) + PrintEol(m.empty)
    + PrintBody(m.body)
  }

  function BodyLog(log: Log, bs: seq<byte>): Log { if bs == [] then log else Deliver(log, Body, bs) }

  function ReasonLog(log: Log, reason: seq<byte>): Log {
    if reason == [] then log else Deliver(log, Status, reason)
  }

  /** The begin of a message is announced for each byte of the line ends before it as well. */
  function Begun(log: Log, n: nat): Log { if n == 0 then log else Begun(log, n - 1) + [Notified(MessageBegin)] }

  /** What a client is told about a response, after log. */
  function ResponseLog(log: Log, m: Response): Log {
    var line := ReasonLog(Begun(log, |m.lead| + 1), ReasonOf(m.tail));
    var head := HeaderLog(line, m.headers) + [Notified(HeadersComplete)];
    match m.body
    case NoBody => head + [Notified(MessageComplete)]
    case Identity(bytes) => Deliver(head, Body, bytes) + [Notified(MessageComplete)]
    case InPieces(cs, _, _, trailers, _) => HeaderLog(BodyLog(head, Payload(cs)), trailers)
        + [Notified(MessageComplete)]
    case UntilClose(bytes) => BodyLog(head, bytes)
  }

  function PrintAll(ms: seq<Response>): seq<byte> {
    if ms == [] then [] else PrintAll(ms[..|ms| - 1]) + PrintResponse(ms[|ms| - 1])
  }

  function LogAll(log: Log, ms: seq<Response>): Log {
    if ms == [] then log else ResponseLog(LogAll(log, ms[..|ms| - 1]), ms[|ms| - 1])
  }
}
