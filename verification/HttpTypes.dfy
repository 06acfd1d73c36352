/** The data of the streaming HTTP parser: bytes, parser states, the fields of
    `struct http_parser`, and the events its callbacks deliver. */
module HttpTypes {

  newtype byte = x: int | 0 <= x < 256

  const CR: byte := 13
  const LF: byte := 10
  const SP: byte := 32
  const HT: byte := 9
  const FF: byte := 12
  const COLON: byte := 58
  const SEMICOLON: byte := 59
  const COMMA: byte := 44
  const SLASH: byte := 47
  const DOT: byte := 46

  /** ULLONG_MAX: the "no Content-Length seen" marker of `content_length`. */
  const NO_LENGTH: nat := 0xFFFF_FFFF_FFFF_FFFF
  const MAX_HEADER_SIZE: nat := 81920

  // The lower-case keywords the header matchers compare against.
  const CONNECTION: seq<byte> := [99, 111, 110, 110, 101, 99, 116, 105, 111, 110]
  const PROXY_CONNECTION: seq<byte> := [112, 114, 111, 120, 121, 45, 99, 111, 110, 110, 101, 99, 116, 105, 111, 110]
  const CONTENT_LENGTH: seq<byte> := [99, 111, 110, 116, 101, 110, 116, 45, 108, 101, 110, 103, 116, 104]
  const TRANSFER_ENCODING: seq<byte> := [116, 114, 97, 110, 115, 102, 101, 114, 45, 101, 110, 99, 111, 100, 105, 110,
                                         103]
  const UPGRADE: seq<byte> := [117, 112, 103, 114, 97, 100, 101]
  const CHUNKED: seq<byte> := [99, 104, 117, 110, 107, 101, 100]
  const KEEP_ALIVE: seq<byte> := [107, 101, 101, 112, 45, 97, 108, 105, 118, 101]
  const CLOSE: seq<byte> := [99, 108, 111, 115, 101]

  /** A C string indexed up to and including its terminating NUL. */
  function At(s: seq<byte>, i: nat): byte
    requires i <= |s|
  {
    if i < |s| then s[i] else 0
  }

  /** `LOWER(c)`: c | 0x20. */
  function Lower(b: byte): byte {
    if (b as int / 32) % 2 == 1 then b else (b as int + 32) as byte
  }

  predicate IsAlpha(b: byte) { 97 <= Lower(b) <= 122 }

  predicate IsNum(b: byte) { 48 <= b <= 57 }

  /** The token table: 0 for a separator or control, else the lower-cased byte. */
  function Token(b: byte): byte {
    if 65 <= b <= 90 then b + 32
    else if 97 <= b <= 122 || IsNum(b) || b == 33 || 35 <= b <= 39 || b == 42 || b == 43
            || b == 45 || b == 46 || 94 <= b <= 96 || b == 124 || b == 126 then b
    else 0
  }

  /** The hex digit table, with None for its -1. */
  function Unhex(b: byte): Option<nat> {
    if IsNum(b) then Some(b as int - 48)
    else if 65 <= b <= 70 then Some(b as int - 55)
    else if 97 <= b <= 102 then Some(b as int - 87)
    else None
  }

  predicate IsMark(b: byte) {
    b == 45 || b == 95 || b == 46 || b == 33 || b == 126 || b == 42 || b == 39 || b == 40 || b == 41
  }

  predicate IsUserinfoChar(b: byte) {
    IsAlpha(b) || IsNum(b) || IsMark(b) || b == 37 || b == 59 || b == 58 || b == 38 || b == 61
    || b == 43 || b == 36 || b == 44
  }

  /** Strict mode: printable ASCII other than '#' and '?'. */
  predicate IsUrlChar(b: byte) { 33 <= b <= 126 && b != 35 && b != 63 }

  datatype Option<+T> = None | Some(value: T)

  datatype ParserType = Request | Response | Both

  datatype Method =
    | Delete | Get | Head | Post | Put | Connect | Options | Trace | Copy | Lock | Mkcol | Move
    | Propfind | Proppatch | Search | Unlock | Report | Mkactivity | Checkout | Merge | Msearch
    | Notify | Subscribe | Unsubscribe | Patch | Purge | Mkcalendar

  function MethodString(m: Method): (s: seq<byte>)
    ensures 3 <= |s| <= 11
  {
    match m
    case Delete => [68, 69, 76, 69, 84, 69]
    case Get => [71, 69, 84]
    case Head => [72, 69, 65, 68]
    case Post => [80, 79, 83, 84]
    case Put => [80, 85, 84]
    case Connect => [67, 79, 78, 78, 69, 67, 84]
    case Options => [79, 80, 84, 73, 79, 78, 83]
    case Trace => [84, 82, 65, 67, 69]
    case Copy => [67, 79, 80, 89]
    case Lock => [76, 79, 67, 75]
    case Mkcol => [77, 75, 67, 79, 76]
    case Move => [77, 79, 86, 69]
    case Propfind => [80, 82, 79, 80, 70, 73, 78, 68]
    case Proppatch => [80, 82, 79, 80, 80, 65, 84, 67, 72]
    case Search => [83, 69, 65, 82, 67, 72]
    case Unlock => [85, 78, 76, 79, 67, 75]
    case Report => [82, 69, 80, 79, 82, 84]
    case Mkactivity => [77, 75, 65, 67, 84, 73, 86, 73, 84, 89]
    case Checkout => [67, 72, 69, 67, 75, 79, 85, 84]
    case Merge => [77, 69, 82, 71, 69]
    case Msearch => [77, 45, 83, 69, 65, 82, 67, 72]
    case Notify => [78, 79, 84, 73, 70, 89]
    case Subscribe => [83, 85, 66, 83, 67, 82, 73, 66, 69]
    case Unsubscribe => [85, 78, 83, 85, 66, 83, 67, 82, 73, 66, 69]
    case Patch => [80, 65, 84, 67, 72]
    case Purge => [80, 85, 82, 71, 69]
    case Mkcalendar => [77, 75, 67, 65, 76, 69, 78, 68, 65, 82]
  }

  datatype State =
    | Dead
    | StartReqOrRes | ResOrRespH
    | StartRes | ResH | ResHT | ResHTT | ResHTTP
    | ResFirstHttpMajor | ResHttpMajor | ResFirstHttpMinor | ResHttpMinor
    | ResFirstStatusCode | ResStatusCode | ResStatusStart | ResStatus | ResLineAlmostDone
    | StartReq
    | ReqMethod | ReqSpacesBeforeUrl
    | ReqSchema | ReqSchemaSlash | ReqSchemaSlashSlash
    | ReqServerStart | ReqServer | ReqServerWithAt
    | ReqPath | ReqQueryStringStart | ReqQueryString | ReqFragmentStart | ReqFragment
    | ReqHttpStart | ReqHttpH | ReqHttpHT | ReqHttpHTT | ReqHttpHTTP
    | ReqFirstHttpMajor | ReqHttpMajor | ReqFirstHttpMinor | ReqHttpMinor | ReqLineAlmostDone
    | HeaderFieldStart | HeaderField
    | HeaderValueDiscardWs | HeaderValueDiscardWsAlmostDone | HeaderValueDiscardLws
    | HeaderValueStart | HeaderValue | HeaderValueLws | HeaderAlmostDone
    | ChunkSizeStart | ChunkSize | ChunkParameters | ChunkSizeAlmostDone
    | HeadersAlmostDone | HeadersDone
    | ChunkData | ChunkDataAlmostDone | ChunkDataDone
    | BodyIdentity | BodyIdentityEof
    | MessageDone

  /** `PARSING_HEADER(state)`: the states up to and including s_headers_done. */
  predicate ParsingHeader(s: State) {
    !(s.ChunkData? || s.ChunkDataAlmostDone? || s.ChunkDataDone? || s.BodyIdentity?
      || s.BodyIdentityEof? || s.MessageDone?)
  }

  datatype HeaderState =
    | General | C | CO | CON
    | MatchingConnection | MatchingProxyConnection | MatchingContentLength
    | MatchingTransferEncoding | MatchingUpgrade
    | ConnectionHeader | ContentLengthHeader | TransferEncodingHeader | UpgradeHeader
    | MatchingChunked | TokenStart | MatchingKeepAlive | MatchingClose | MatchingUpgradeToken
    | InToken
    | ChunkedValue | KeepAliveValue | CloseValue | UpgradeValue

  datatype Flag = Chunked | ConnKeepAlive | ConnClose | ConnUpgrade | Trailing | UpgradeSeen

  datatype Errno =
    | Ok | InvalidEofState | HeaderOverflow | ClosedConnection | InvalidVersion | InvalidStatus
    | InvalidMethod | InvalidUrl | LfExpected | InvalidHeaderToken | InvalidContentLength
    | InvalidChunkSize | InvalidConstant | Strict

  /** What the embedding program installed as on_message_complete: nothing that
      touches the parser, or the load generator's `response_complete`, which
      re-initialises a parser whose connection stays open. */
  datatype Client = Passive | LoadGenerator

  /** `struct http_parser` except `nread` (see HttpParser.Parser). */
  datatype Core = Core(
    kind: ParserType,
    flags: set<Flag>,
    state: State,
    hstate: HeaderState,
    index: nat,
    contentLength: nat,
    major: nat,
    minor: nat,
    status: nat,
    verb: Method,
    errno: Errno,
    upgrade: bool)

  datatype Kind = Url | Status | Field | Value | Body

  datatype Notice = MessageBegin | HeadersComplete | MessageComplete

  /** Delivered events. Successive data callbacks of one kind are joined. */
  datatype Event = Notified(notice: Notice) | Data(kind: Kind, bytes: seq<byte>)

  type Log = seq<Event>

  /** A data callback of kind k carrying bs, on top of what was delivered before. */
  function Deliver(log: Log, k: Kind, bs: seq<byte>): Log {
    var n := |log|;
    if n > 0 && log[n - 1].Data? && log[n - 1].kind == k
    then log[..n - 1] + [Data(k, log[n - 1].bytes + bs)]
    else log + [Data(k, bs)]
  }

  lemma DeliverJoins(log: Log, k: Kind, a: seq<byte>, b: seq<byte>)
    ensures Deliver(Deliver(log, k, a), k, b) == Deliver(log, k, a + b)
  {
    var l := Deliver(log, k, a);
    var n := |log|;
    if n > 0 && log[n - 1].Data? && log[n - 1].kind == k {
      assert (log[n - 1].bytes + a) + b == log[n - 1].bytes + (a + b);
      assert l[..|l| - 1] == log[..n - 1];
    } else {
      assert l[..|l| - 1] == log;
    }
  }

  predicate EndsIn(log: Log, k: Kind) {
    |log| > 0 && log[|log| - 1].Data? && log[|log| - 1].kind == k
  }

  lemma DeliverNothing(log: Log, k: Kind)
    requires EndsIn(log, k)
    ensures Deliver(log, k, []) == log
  {
    assert log[|log| - 1].bytes + [] == log[|log| - 1].bytes;
    assert log == log[..|log| - 1] + [log[|log| - 1]];
  }
}
