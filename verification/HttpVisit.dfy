/** One visit of the big switch in `http_parser_execute`: what a single byte does in
    each parser state. Scanning states are given here byte by byte; the loops that the
    program runs for them are methods of HttpParser.Parser, proved to amount to this. */
module HttpVisit {
  import opened HttpTypes

  /** Advance: go on with the next byte. Again: REEXECUTE, look at the same byte in the
      new state. Fail: an error was recorded. Halt: return after this byte (upgrade). */
  datatype Next = Advance | Again | Fail | Halt

  /** opens: MARK(kind) at this byte. closes: CALLBACK_DATA(kind) up to this byte. */
  datatype Visit = Visit(core: Core, opens: Option<Kind>, closes: Option<Kind>, notice: Option<Notice>, next: Next)

  function Go(c: Core, s: State): Visit { Visit(c.(state := s), None, None, None, Advance) }

  function Stay(c: Core): Visit { Visit(c, None, None, None, Advance) }

  function Redo(c: Core, s: State): Visit { Visit(c.(state := s), None, None, None, Again) }

  function Error(c: Core, e: Errno): Visit { Visit(c.(errno := e), None, None, None, Fail) }

  function Expect(c: Core, ok: bool, s: State): Visit { if ok then Go(c, s) else Error(c, Strict) }

  // ----- end of message -------------------------------------------------------------

  predicate MessageNeedsEof(c: Core) {
    !c.kind.Request?
    && !(c.status / 100 == 1 || c.status == 204 || c.status == 304)
    && Chunked !in c.flags && c.contentLength == NO_LENGTH
  }

  predicate ShouldKeepAlive(c: Core) {
    (if c.major > 0 && c.minor > 0 then ConnClose !in c.flags else ConnKeepAlive in c.flags)
    && !MessageNeedsEof(c)
  }

  function InitCore(t: ParserType): Core {
    Core(t, {}, if t.Request? then StartReq else if t.Response? then StartRes else StartReqOrRes,
         General, 0, 0, 0, 0, 0, Delete, Ok, false)
  }

  /** `NEW_MESSAGE()`: the state after a complete message. */
  function NewMessage(c: Core): State {
    if !ShouldKeepAlive(c) then Dead else if c.kind.Request? then StartReq else StartRes
  }

  /** The parser after on_message_complete returned. */
  function AfterComplete(c: Core, client: Client): Core {
    if client.LoadGenerator? && ShouldKeepAlive(c) then InitCore(Response) else c
  }

  /** UPDATE_STATE(NEW_MESSAGE()); CALLBACK_NOTIFY(message_complete). */
  function Complete(c: Core, client: Client, next: Next): Visit {
    Visit(AfterComplete(c.(state := NewMessage(c)), client), None, None, Some(MessageComplete), next)
  }

  // ----- status line ----------------------------------------------------------------

  function StartMessage(c: Core): Core { c.(flags := {}, contentLength := NO_LENGTH) }

  function Begin(c: Core, s: State): Visit { Visit(c.(state := s), None, None, Some(MessageBegin), Advance) }

  function VisitStatusLine(c: Core, ch: byte): Visit
  {
    match c.state
    case Dead => if ch == CR || ch == LF then Stay(c) else Error(c, ClosedConnection)
    case StartReqOrRes =>
      if ch == CR || ch == LF then Stay(c)
      else if ch == 72 then Begin(StartMessage(c), ResOrRespH)
      else Redo(StartMessage(c).(kind := Request), StartReq)
    case ResOrRespH =>
      if ch == 84 then Go(c.(kind := Response), ResHT)
      else if ch != 69 then Error(c, InvalidConstant)
      else Go(c.(kind := Request, verb := Head, index := 2), ReqMethod)
    case StartRes =>
      var c' := StartMessage(c);
      if ch == 72 then Begin(c', ResH)
      else if ch == CR || ch == LF then Begin(c', StartRes)
      else Error(c', InvalidConstant)
    case ResH => Expect(c, ch == 84, ResHT)
    case ResHT => Expect(c, ch == 84, ResHTT)
    case ResHTT => Expect(c, ch == 80, ResHTTP)
    case ResHTTP => Expect(c, ch == SLASH, ResFirstHttpMajor)
    case ResFirstHttpMajor =>
      if !IsNum(ch) then Error(c, InvalidVersion) else Go(c.(major := ch as int - 48), ResHttpMajor)
    case ResHttpMajor =>
      if ch == DOT then Go(c, ResFirstHttpMinor)
      else if !IsNum(ch) then Error(c, InvalidVersion)
      else
        var c' := c.(major := c.major * 10 + (ch as int - 48));
        if c'.major > 999 then Error(c', InvalidVersion) else Stay(c')
    case ResFirstHttpMinor =>
      if !IsNum(ch) then Error(c, InvalidVersion) else Go(c.(minor := ch as int - 48), ResHttpMinor)
    case ResHttpMinor =>
      if ch == SP then Go(c, ResFirstStatusCode)
      else if !IsNum(ch) then Error(c, InvalidVersion)
      else
        var c' := c.(minor := c.minor * 10 + (ch as int - 48));
        if c'.minor > 999 then Error(c', InvalidVersion) else Stay(c')
    case ResFirstStatusCode =>
      if IsNum(ch) then Go(c.(status := ch as int - 48), ResStatusCode)
      else if ch == SP then Stay(c)
      else Error(c, InvalidStatus)
    case ResStatusCode =>
      if !IsNum(ch) then
        if ch == SP then Go(c, ResStatusStart)
        else if ch == CR then Go(c, ResLineAlmostDone)
        else if ch == LF then Go(c, HeaderFieldStart)
        else Error(c, InvalidStatus)
      else
        var c' := c.(status := c.status * 10 + (ch as int - 48));
        if c'.status > 999 then Error(c', InvalidStatus) else Stay(c')
    case ResStatusStart =>
      if ch == CR then Go(c, ResLineAlmostDone)
      else if ch == LF then Go(c, HeaderFieldStart)
      else Go(c.(index := 0), ResStatus).(opens := Some(Status))
    case ResStatus =>
      if ch == CR then Go(c, ResLineAlmostDone).(closes := Some(Status))
      else if ch == LF then Go(c, HeaderFieldStart).(closes := Some(Status))
      else Stay(c)
    case ResLineAlmostDone => Expect(c, ch == LF, HeaderFieldStart)
    case _ => Stay(c)
  }

  // ----- request line ---------------------------------------------------------------

  function FirstMethod(ch: byte): Option<Method> {
    if ch == 67 then Some(Connect)
    else if ch == 68 then Some(Delete)
    else if ch == 71 then Some(Get)
    else if ch == 72 then Some(Head)
    else if ch == 76 then Some(Lock)
    else if ch == 77 then Some(Mkcol)
    else if ch == 78 then Some(Notify)
    else if ch == 79 then Some(Options)
    else if ch == 80 then Some(Post)
    else if ch == 82 then Some(Report)
    else if ch == 83 then Some(Subscribe)
    else if ch == 84 then Some(Trace)
    else if ch == 85 then Some(Unlock)
    else None
  }

  /** Where the candidate method does not match, the sibling it may still become. */
  function Sibling(m: Method, i: nat, ch: byte): Option<Method> {
    if m.Connect? then
      if i == 1 && ch == 72 then Some(Checkout) else if i == 2 && ch == 80 then Some(Copy) else None
    else if m.Mkcol? then
      if i == 1 && ch == 79 then Some(Move)
      else if i == 1 && ch == 69 then Some(Merge)
      else if i == 1 && ch == 45 then Some(Msearch)
      else if i == 2 && ch == 65 then Some(Mkactivity)
      else if i == 3 && ch == 65 then Some(Mkcalendar)
      else None
    else if m.Subscribe? then
      if i == 1 && ch == 69 then Some(Search) else None
    else if i == 1 && m.Post? then
      if ch == 82 then Some(Propfind)
      else if ch == 85 then Some(Put)
      else if ch == 65 then Some(Patch)
      else None
    else if i == 2 then
      if m.Put? && ch == 82 then Some(Purge)
      else if m.Unlock? && ch == 83 then Some(Unsubscribe)
      else None
    else if i == 4 && m.Propfind? && ch == 80 then Some(Proppatch)
    else None
  }

  /** `parse_url_char` in strict mode, for the url states; None for its s_dead. */
  function UrlChar(s: State, ch: byte): (r: Option<State>)
    ensures r.Some? ==> OpenKind(r.value) == Some(Url)
  {
    if ch == SP || ch == CR || ch == LF || ch == HT || ch == FF then None
    else match s
      case ReqSpacesBeforeUrl =>
        if ch == SLASH || ch == 42 then Some(ReqPath)
        else if IsAlpha(ch) then Some(ReqSchema)
        else None
      case ReqSchema =>
        if IsAlpha(ch) then Some(ReqSchema) else if ch == COLON then Some(ReqSchemaSlash) else None
      case ReqSchemaSlash => if ch == SLASH then Some(ReqSchemaSlashSlash) else None
      case ReqSchemaSlashSlash => if ch == SLASH then Some(ReqServerStart) else None
      case ReqServerWithAt => if ch == 64 then None else ServerChar(ch)
      case ReqServerStart => ServerChar(ch)
      case ReqServer => ServerChar(ch)
      case ReqPath =>
        if IsUrlChar(ch) then Some(ReqPath)
        else if ch == 63 then Some(ReqQueryStringStart)
        else if ch == 35 then Some(ReqFragmentStart)
        else None
      case ReqQueryStringStart => QueryChar(ch)
      case ReqQueryString => QueryChar(ch)
      case ReqFragmentStart =>
        if IsUrlChar(ch) || ch == 63 then Some(ReqFragment)
        else if ch == 35 then Some(ReqFragmentStart)
        else None
      case ReqFragment =>
        if IsUrlChar(ch) || ch == 63 || ch == 35 then Some(ReqFragment) else None
      case _ => None
  }

  function ServerChar(ch: byte): Option<State> {
    if ch == SLASH then Some(ReqPath)
    else if ch == 63 then Some(ReqQueryStringStart)
    else if ch == 64 then Some(ReqServerWithAt)
    else if IsUserinfoChar(ch) || ch == 91 || ch == 93 then Some(ReqServer)
    else None
  }

  function QueryChar(ch: byte): Option<State> {
    if IsUrlChar(ch) || ch == 63 then Some(ReqQueryString)
    else if ch == 35 then Some(ReqFragmentStart)
    else None
  }

  function UrlStep(c: Core, from: State, ch: byte): Visit {
    match UrlChar(from, ch)
    case Some(s) => Go(c, s)
    case None => Error(c.(state := Dead), InvalidUrl)
  }

  function VisitRequestLine(c: Core, ch: byte): Visit
    requires c.state.ReqMethod? ==> c.index <= |MethodString(c.verb)|
  {
    match c.state
    case StartReq =>
      if ch == CR || ch == LF then Stay(c)
      else if !IsAlpha(ch) then Error(StartMessage(c), InvalidMethod)
      else (
        match FirstMethod(ch)
        case Some(m) => Begin(StartMessage(c).(verb := m, index := 1), ReqMethod)
        case None => Error(StartMessage(c).(verb := Delete, index := 1), InvalidMethod)
      )
    case ReqMethod =>
      var want := At(MethodString(c.verb), c.index);
      if ch == 0 then Error(c, InvalidMethod)
      else if ch == SP && want == 0 then Go(c.(index := c.index + 1), ReqSpacesBeforeUrl)
      else if ch == want then Stay(c.(index := c.index + 1))
      else (
        match Sibling(c.verb, c.index, ch)
        case Some(m) => Stay(c.(verb := m, index := c.index + 1))
        case None => Error(c, InvalidMethod)
      )
    case ReqSpacesBeforeUrl =>
      if ch == SP then Stay(c)
      else UrlStep(c, if c.verb.Connect? then ReqServerStart else c.state, ch).(opens := Some(Url))
    case ReqSchema => if ch == SP || ch == CR || ch == LF then Error(c, InvalidUrl) else UrlStep(c, c.state, ch)
    case ReqSchemaSlash => if ch == SP || ch == CR || ch == LF then Error(c, InvalidUrl) else UrlStep(c, c.state, ch)
    case ReqSchemaSlashSlash => if ch == SP || ch == CR || ch == LF then Error(c, InvalidUrl)
        else UrlStep(c, c.state, ch)
    case ReqServerStart => if ch == SP || ch == CR || ch == LF then Error(c, InvalidUrl) else UrlStep(c, c.state, ch)
    case ReqServer => UrlEndOrStep(c, ch)
    case ReqServerWithAt => UrlEndOrStep(c, ch)
    case ReqPath => UrlEndOrStep(c, ch)
    case ReqQueryStringStart => UrlEndOrStep(c, ch)
    case ReqQueryString => UrlEndOrStep(c, ch)
    case ReqFragmentStart => UrlEndOrStep(c, ch)
    case ReqFragment => UrlEndOrStep(c, ch)
    case ReqHttpStart =>
      if ch == 72 then Go(c, ReqHttpH) else if ch == SP then Stay(c) else Error(c, InvalidConstant)
    case ReqHttpH => Expect(c, ch == 84, ReqHttpHT)
    case ReqHttpHT => Expect(c, ch == 84, ReqHttpHTT)
    case ReqHttpHTT => Expect(c, ch == 80, ReqHttpHTTP)
    case ReqHttpHTTP => Expect(c, ch == SLASH, ReqFirstHttpMajor)
    case ReqFirstHttpMajor =>
      if ch < 49 || ch > 57 then Error(c, InvalidVersion) else Go(c.(major := ch as int - 48), ReqHttpMajor)
    case ReqHttpMajor =>
      if ch == DOT then Go(c, ReqFirstHttpMinor)
      else if !IsNum(ch) then Error(c, InvalidVersion)
      else
        var c' := c.(major := c.major * 10 + (ch as int - 48));
        if c'.major > 999 then Error(c', InvalidVersion) else Stay(c')
    case ReqFirstHttpMinor =>
      if !IsNum(ch) then Error(c, InvalidVersion) else Go(c.(minor := ch as int - 48), ReqHttpMinor)
    case ReqHttpMinor =>
      if ch == CR then Go(c, ReqLineAlmostDone)
      else if ch == LF then Go(c, HeaderFieldStart)
      else if !IsNum(ch) then Error(c, InvalidVersion)
      else
        var c' := c.(minor := c.minor * 10 + (ch as int - 48));
        if c'.minor > 999 then Error(c', InvalidVersion) else Stay(c')
    case ReqLineAlmostDone => if ch != LF then Error(c, LfExpected) else Go(c, HeaderFieldStart)
    case _ => Stay(c)
  }

  function UrlEndOrStep(c: Core, ch: byte): Visit {
    if ch == SP then Go(c, ReqHttpStart).(closes := Some(Url))
    else if ch == CR then Go(c.(major := 0, minor := 9), ReqLineAlmostDone).(closes := Some(Url))
    else if ch == LF then Go(c.(major := 0, minor := 9), HeaderFieldStart).(closes := Some(Url))
    else UrlStep(c, c.state, ch)
  }

  // ----- headers --------------------------------------------------------------------

  function FirstFieldState(t: byte): HeaderState {
    if t == 99 then C
    else if t == 112 then MatchingProxyConnection
    else if t == 116 then MatchingTransferEncoding
    else if t == 117 then MatchingUpgrade
    else General
  }

  /** One more byte t of a header name against keyword k. */
  function Match(k: seq<byte>, index: nat, t: byte, on: HeaderState, done: HeaderState, off: HeaderState): (HeaderState,
      nat)
    requires |k| >= 2
  {
    var i := index + 1;
    if i > |k| || t != At(k, i) then (off, i)
    else if i == |k| - 1 then (done, i)
    else (on, i)
  }

  /** A token byte (t its lower-case form) inside a header name. */
  function FieldStep(h: HeaderState, index: nat, ch: byte, t: byte): (HeaderState, nat)
  {
    match h
    case C => (if t == 111 then CO else General, index + 1)
    case CO => (if t == 110 then CON else General, index + 1)
    case CON =>
      (if t == 110 then MatchingConnection else if t == 116 then MatchingContentLength else General, index + 1)
    case MatchingConnection => Match(CONNECTION, index, t, h, ConnectionHeader, General)
    case MatchingProxyConnection => Match(PROXY_CONNECTION, index, t, h, ConnectionHeader, General)
    case MatchingContentLength => Match(CONTENT_LENGTH, index, t, h, ContentLengthHeader, General)
    case MatchingTransferEncoding => Match(TRANSFER_ENCODING, index, t, h, TransferEncodingHeader, General)
    case MatchingUpgrade => Match(UPGRADE, index, t, h, UpgradeHeader, General)
    case ConnectionHeader => (if ch != SP then General else h, index)
    case ContentLengthHeader => (if ch != SP then General else h, index)
    case TransferEncodingHeader => (if ch != SP then General else h, index)
    case UpgradeHeader => (if ch != SP then General else h, index)
    case _ => (h, index)
  }

  predicate FieldState(h: HeaderState) {
    h.General? || h.C? || h.CO? || h.CON? || h.MatchingConnection? || h.MatchingProxyConnection?
    || h.MatchingContentLength? || h.MatchingTransferEncoding? || h.MatchingUpgrade?
    || h.ConnectionHeader? || h.ContentLengthHeader? || h.TransferEncodingHeader? || h.UpgradeHeader?
  }

  /** The part of the parser that a header value byte can change. */
  datatype ValueAcc = ValueAcc(h: HeaderState, index: nat, flags: set<Flag>, length: nat, bad: bool)

  function TokenFlag(h: HeaderState): set<Flag> {
    match h
    case KeepAliveValue => {ConnKeepAlive}
    case CloseValue => {ConnClose}
    case UpgradeValue => {ConnUpgrade}
    case _ => {}
  }

  function FirstToken(t: byte): Option<HeaderState> {
    if t == 107 then Some(MatchingKeepAlive)
    else if t == 99 then Some(MatchingClose)
    else if t == 117 then Some(MatchingUpgradeToken)
    else None
  }

  /** A byte other than CR and LF inside a header value. */
  function ValueStep(a: ValueAcc, ch: byte): ValueAcc
  {
    var t := Lower(ch);
    match a.h
    case ContentLengthHeader =>
      if ch == SP then a
      else if !IsNum(ch) || (NO_LENGTH - 10) / 10 < a.length then a.(bad := true)
      else a.(length := (a.length * 10 + (ch as int - 48)) % (NO_LENGTH + 1))
    case MatchingChunked =>
      var (h, i) := Match(CHUNKED, a.index, t, a.h, ChunkedValue, General); a.(h := h, index := i)
    case TokenStart => (
      match FirstToken(t)
      case Some(h) => a.(h := h)
      case None =>
        if Token(t) != 0 then a.(h := InToken)
        else if t == SP || t == HT then a
        else a.(h := General)
    )
    case MatchingKeepAlive =>
      var (h, i) := Match(KEEP_ALIVE, a.index, t, a.h, KeepAliveValue, InToken); a.(h := h, index := i)
    case MatchingClose =>
      var (h, i) := Match(CLOSE, a.index, t, a.h, CloseValue, InToken); a.(h := h, index := i)
    case MatchingUpgradeToken =>
      var (h, i) := Match(UPGRADE, a.index, t, a.h, UpgradeValue, InToken); a.(h := h, index := i)
    case InToken => if ch == COMMA then a.(h := TokenStart, index := 0) else a
    case ChunkedValue => if ch != SP then a.(h := General) else a
    case KeepAliveValue => AfterToken(a, ch)
    case CloseValue => AfterToken(a, ch)
    case UpgradeValue => AfterToken(a, ch)
    case _ => a.(h := General)
  }

  function AfterToken(a: ValueAcc, ch: byte): ValueAcc {
    if ch == COMMA then a.(h := TokenStart, index := 0, flags := a.flags + TokenFlag(a.h))
    else if ch != SP then a.(h := InToken)
    else a
  }

  function Acc(c: Core): ValueAcc { ValueAcc(c.hstate, c.index, c.flags, c.contentLength, false) }

  function WithAcc(c: Core, a: ValueAcc): Core {
    c.(hstate := a.h, index := a.index, flags := a.flags, contentLength := a.length)
  }

  /** The first byte of a header value. */
  function StartValue(c: Core, ch: byte): Visit {
    var t := Lower(ch);
    var c' := c.(state := HeaderValue, index := 0);
    var v := Visit(c', Some(Value), None, None, Advance);
    match c.hstate
    case UpgradeHeader => v.(core := c'.(flags := c.flags + {UpgradeSeen}, hstate := General))
    case TransferEncodingHeader => v.(core := c'.(hstate := if t == 99 then MatchingChunked else General))
    case ContentLengthHeader =>
      if !IsNum(ch) then v.(core := c'.(errno := InvalidContentLength), next := Fail)
      else v.(core := c'.(contentLength := ch as int - 48))
    case ConnectionHeader => v.(core := c'.(hstate := match FirstToken(t) case Some(h) => h case None => InToken))
    case TokenStart => v
    case _ => v.(core := c'.(hstate := General))
  }

  /** The flags a header leaves behind when it ends in this header state. */
  function FinishFlags(c: Core): set<Flag> {
    c.flags + (if c.hstate.ChunkedValue? then {Chunked} else TokenFlag(c.hstate))
  }

  function VisitHeader(c: Core, ch: byte, client: Client): Visit
  {
    match c.state
    case HeaderFieldStart =>
      if ch == CR then Go(c, HeadersAlmostDone)
      else if ch == LF then Redo(c, HeadersAlmostDone)
      else if Token(ch) == 0 then Error(c, InvalidHeaderToken)
      else Go(c.(index := 0, hstate := FirstFieldState(Token(ch))), HeaderField).(opens := Some(Field))
    case HeaderField =>
      if Token(ch) != 0 then
        var (h, i) := FieldStep(c.hstate, c.index, ch, Token(ch));
        Stay(c.(hstate := h, index := i))
      else if ch == COLON then Go(c, HeaderValueDiscardWs).(closes := Some(Field))
      else Error(c, InvalidHeaderToken)
    case HeaderValueDiscardWs =>
      if ch == SP || ch == HT then Stay(c)
      else if ch == CR then Go(c, HeaderValueDiscardWsAlmostDone)
      else if ch == LF then Go(c, HeaderValueDiscardLws)
      else StartValue(c, ch)
    case HeaderValueStart => StartValue(c, ch)
    case HeaderValue =>
      if ch == CR then Go(c, HeaderAlmostDone).(closes := Some(Value))
      else if ch == LF then Redo(c, HeaderAlmostDone).(closes := Some(Value))
      else
        var a := ValueStep(Acc(c), ch);
        if a.bad then Error(c, InvalidContentLength) else Stay(WithAcc(c, a))
    case HeaderAlmostDone => Expect(c, ch == LF, HeaderValueLws)
    case HeaderValueLws =>
      if ch == SP || ch == HT then Redo(c, HeaderValueStart)
      else Redo(c.(flags := FinishFlags(c)), HeaderFieldStart)
    case HeaderValueDiscardWsAlmostDone => Expect(c, ch == LF, HeaderValueDiscardLws)
    case HeaderValueDiscardLws =>
      if ch == SP || ch == HT then Go(c, HeaderValueDiscardWs)
      else Redo(c.(flags := FinishFlags(c)), HeaderFieldStart).(opens := Some(Value), closes := Some(Value))
    case HeadersAlmostDone =>
      if ch != LF then Error(c, Strict)
      else if Trailing in c.flags then Complete(c, client, Advance)
      else Redo(c.(upgrade := (UpgradeSeen in c.flags && ConnUpgrade in c.flags) || c.verb.Connect?),
                HeadersDone).(notice := Some(HeadersComplete))
    case HeadersDone =>
      if ch != LF then Error(c, Strict)
      else if c.upgrade then Complete(c, client, Halt)
      else if Chunked in c.flags then Go(c, ChunkSizeStart)
      else if c.contentLength == 0 then Complete(c, client, Advance)
      else if c.contentLength != NO_LENGTH then Go(c, BodyIdentity)
      else if c.kind.Request? || !MessageNeedsEof(c) then Complete(c, client, Advance)
      else Go(c, BodyIdentityEof)
    case _ => Stay(c)
  }

  // ----- bodies ---------------------------------------------------------------------

  function VisitBody(c: Core, ch: byte, client: Client): Visit
    requires c.state.BodyIdentity? || c.state.ChunkData? ==> c.contentLength > 0
  {
    match c.state
    case BodyIdentity =>
      var c' := c.(contentLength := c.contentLength - 1);
      if c'.contentLength == 0 then Redo(c', MessageDone) else Stay(c')
    case BodyIdentityEof => Stay(c)
    case MessageDone => Complete(c, client, Advance)
    case ChunkSizeStart => (
      match Unhex(ch)
      case None => Error(c, InvalidChunkSize)
      case Some(d) => Go(c.(contentLength := d), ChunkSize)
    )
    case ChunkSize =>
      if ch == CR then Go(c, ChunkSizeAlmostDone)
      else (
        match Unhex(ch)
        case None => if ch == SEMICOLON || ch == SP then Go(c, ChunkParameters) else Error(c, InvalidChunkSize)
        case Some(d) =>
          if (NO_LENGTH - 16) / 16 < c.contentLength then Error(c, InvalidContentLength)
          else Stay(c.(contentLength := (c.contentLength * 16 + d) % (NO_LENGTH + 1)))
      )
    case ChunkParameters => if ch == CR then Go(c, ChunkSizeAlmostDone) else Stay(c)
    case ChunkSizeAlmostDone =>
      if ch != LF then Error(c, Strict)
      else if c.contentLength == 0 then Go(c.(flags := c.flags + {Trailing}), HeaderFieldStart)
      else Go(c, ChunkData)
    case ChunkData =>
      var c' := c.(contentLength := c.contentLength - 1);
      if c'.contentLength == 0 then Go(c', ChunkDataAlmostDone) else Stay(c')
    case ChunkDataAlmostDone =>
      if ch != CR then Error(c, Strict) else Go(c, ChunkDataDone).(closes := Some(Body))
    case ChunkDataDone => Expect(c, ch == LF, ChunkSizeStart)
    case _ => Stay(c)
  }

  // ----- the whole switch -----------------------------------------------------------

  datatype Phase = StatusLine | RequestLine | Headers | Bodies

  function PhaseOf(s: State): Phase {
    match s
    case Dead => StatusLine case StartReqOrRes => StatusLine case ResOrRespH => StatusLine
    case StartRes => StatusLine case ResH => StatusLine case ResHT => StatusLine
    case ResHTT => StatusLine case ResHTTP => StatusLine case ResFirstHttpMajor => StatusLine
    case ResHttpMajor => StatusLine case ResFirstHttpMinor => StatusLine case ResHttpMinor => StatusLine
    case ResFirstStatusCode => StatusLine case ResStatusCode => StatusLine
    case ResStatusStart => StatusLine case ResStatus => StatusLine case ResLineAlmostDone => StatusLine
    case HeaderFieldStart => Headers case HeaderField => Headers case HeaderValueDiscardWs => Headers
    case HeaderValueDiscardWsAlmostDone => Headers case HeaderValueDiscardLws => Headers
    case HeaderValueStart => Headers case HeaderValue => Headers case HeaderValueLws => Headers
    case HeaderAlmostDone => Headers case HeadersAlmostDone => Headers case HeadersDone => Headers
    case ChunkSizeStart => Bodies case ChunkSize => Bodies case ChunkParameters => Bodies
    case ChunkSizeAlmostDone => Bodies case ChunkData => Bodies case ChunkDataAlmostDone => Bodies
    case ChunkDataDone => Bodies case BodyIdentity => Bodies case BodyIdentityEof => Bodies
    case MessageDone => Bodies
    case _ => RequestLine
  }

  /** What `http_parser_execute` may rely on between two bytes: the facts its asserts
      state, per parser state. */
  predicate Inv(c: Core) {
    c.errno.Ok? && c.contentLength <= NO_LENGTH && StateInv(c)
  }

  predicate StateInv(c: Core) {
    match c.state
    case ReqMethod => c.index <= |MethodString(c.verb)|
    case HeaderField => FieldState(c.hstate)
    case HeaderValue =>
      !c.hstate.ConnectionHeader? && !c.hstate.TransferEncodingHeader?
      && (c.hstate.ContentLengthHeader? ==> c.contentLength < NO_LENGTH)
    case ChunkSizeStart => Chunked in c.flags
    case ChunkSize => Chunked in c.flags && c.contentLength < NO_LENGTH
    case ChunkParameters => Chunked in c.flags && c.contentLength < NO_LENGTH
    case ChunkSizeAlmostDone => Chunked in c.flags && c.contentLength < NO_LENGTH
    case ChunkData => Chunked in c.flags && 0 < c.contentLength < NO_LENGTH
    case ChunkDataAlmostDone => Chunked in c.flags && c.contentLength == 0
    case ChunkDataDone => Chunked in c.flags
    case BodyIdentity => 0 < c.contentLength < NO_LENGTH
    case _ => true
  }

  predicate InChunks(s: State) {
    s.ChunkSizeStart? || s.ChunkSize? || s.ChunkParameters? || s.ChunkSizeAlmostDone?
    || s.ChunkData? || s.ChunkDataAlmostDone? || s.ChunkDataDone?
  }

  function VisitByte(c: Core, ch: byte, client: Client): Visit
    requires Inv(c)
  {
    match PhaseOf(c.state)
    case StatusLine => VisitStatusLine(c, ch)
    case RequestLine => VisitRequestLine(c, ch)
    case Headers => VisitHeader(c, ch, client)
    case Bodies => VisitBody(c, ch, client)
  }

  /** How many REEXECUTEs may still happen on one byte. */
  function Rank(s: State): nat {
    match s
    case HeaderValueLws => 3
    case HeaderValueDiscardLws => 3
    case HeaderFieldStart => 2
    case HeadersAlmostDone => 1
    case StartReqOrRes => 1
    case HeaderValue => 1
    case BodyIdentity => 1
    case _ => 0
  }

  /** The data kind whose mark `http_parser_execute` sets when it is entered in s: bytes
      read into s belong to that kind. */
  function OpenKind(s: State): Option<Kind> {
    match s
    case HeaderField => Some(Field)
    case HeaderValue => Some(Value)
    case ResStatus => Some(Status)
    case ReqPath => Some(Url) case ReqSchema => Some(Url) case ReqSchemaSlash => Some(Url)
    case ReqSchemaSlashSlash => Some(Url) case ReqServerStart => Some(Url) case ReqServer => Some(Url)
    case ReqServerWithAt => Some(Url) case ReqQueryStringStart => Some(Url)
    case ReqQueryString => Some(Url) case ReqFragmentStart => Some(Url) case ReqFragment => Some(Url)
    case _ => None
  }

  /** The kind of the mark that may be set in state s. */
  function MarkKind(s: State): Option<Kind> {
    if BodyByte(s) || s.ChunkDataAlmostDone? then Some(Body) else OpenKind(s)
  }

  predicate BodyByte(s: State) { s.BodyIdentity? || s.BodyIdentityEof? || s.ChunkData? }

  /** The kind of data, if any, that a visited byte belongs to. */
  function Taken(from: State, v: Visit): Option<Kind> {
    if BodyByte(from) then Some(Body) else if v.next.Advance? then OpenKind(v.core.state) else None
  }

  // ----- every internal assert of the switch is unreachable ---------------------------

  /** A visit keeps the invariant unless it reports an error, and REEXECUTE makes progress. */
  predicate Sound(c: Core, v: Visit) {
    && (v.next.Fail? <==> !v.core.errno.Ok?) && v.core.errno != HeaderOverflow
    && (!v.next.Fail? ==> Inv(v.core))
    && (v.next.Again? ==> Rank(v.core.state) < Rank(c.state))
    && (v.core.state.ChunkSizeStart? && !v.next.Fail? ==> ResetsCount(c.state))
  }

  /** The states whose visit sets `nread` back to 0. */
  predicate ResetsCount(s: State) { s.HeadersDone? || s.ChunkSizeAlmostDone? || s.ChunkDataDone? }

  /** MARK and CALLBACK_DATA keep exactly the mark of the run the parser is in. */
  predicate MarksFollow(c: Core, v: Visit) {
    var before, after := OpenKind(c.state), OpenKind(v.core.state);
    && (v.opens.Some? ==> before.None? && !v.next.Halt? && v.opens != Some(Body))
    && (v.opens.Some? && v.closes.None? && !v.next.Fail? ==> v.opens == after && v.next.Advance?)
    && (v.opens.Some? && v.closes.Some? ==> v.opens == v.closes && after.None? && v.next.Again?)
    && (v.opens.None? && v.closes.Some? ==>
          after.None? && (v.closes == before || (v.closes == Some(Body) && c.state.ChunkDataAlmostDone?)))
    && (v.closes.None? && v.opens.None? && !v.next.Fail? ==> after == before)
    && (v.notice.Some? ==> v.closes.None? && v.opens.None?)
    && (v.notice.Some? || v.closes.Some? || v.next.Halt? ==> MarkKind(v.core.state).None?)
    && (c.state.ChunkDataAlmostDone? ==> v.opens.None? && (v.next.Fail? || v.closes == Some(Body)))
    && (v.next.Fail? ==> v.closes.None? && v.notice.None?)
  }

  predicate Good(c: Core, v: Visit) { Sound(c, v) && MarksFollow(c, v) }

  predicate BeforeVersion(s: State) {
    s.Dead? || s.StartReqOrRes? || s.ResOrRespH? || s.StartRes? || s.ResH? || s.ResHT? || s.ResHTT? || s.ResHTTP?
  }

  lemma StatusLineSound(c: Core, ch: byte, v: Visit)
    requires Inv(c) && BeforeVersion(c.state) && v == VisitStatusLine(c, ch)
    ensures Sound(c, v)
  {
  }

  lemma StatusCodeSound(c: Core, ch: byte, v: Visit)
    requires Inv(c) && PhaseOf(c.state).StatusLine? && !BeforeVersion(c.state) && v == VisitStatusLine(c, ch)
    ensures Sound(c, v)
  {
  }

  lemma StatusLineMarks(c: Core, ch: byte, v: Visit)
    requires Inv(c) && PhaseOf(c.state).StatusLine? && v == VisitStatusLine(c, ch)
    ensures MarksFollow(c, v)
  {
  }

  predicate ReadsUrl(s: State) { s.ReqSpacesBeforeUrl? || OpenKind(s) == Some(Url) }

  lemma UrlStepGood(c: Core, from: State, ch: byte, v: Visit)
    requires Inv(c) && OpenKind(c.state) == Some(Url) && v == UrlStep(c, from, ch)
    ensures Good(c, v)
  {
  }

  lemma FirstUrlStepGood(c: Core, from: State, ch: byte, v: Visit)
    requires Inv(c) && c.state.ReqSpacesBeforeUrl? && v == UrlStep(c, from, ch).(opens := Some(Url))
    ensures Good(c, v)
  {
  }

  lemma UrlStartGood(c: Core, ch: byte, v: Visit)
    requires Inv(c) && c.state.ReqSpacesBeforeUrl? && v == VisitRequestLine(c, ch)
    ensures Good(c, v)
  {
    var from := if c.verb.Connect? then ReqServerStart else c.state;
    FirstUrlStepGood(c, from, ch, UrlStep(c, from, ch).(opens := Some(Url)));
  }

  lemma UrlEndGood(c: Core, ch: byte, v: Visit)
    requires Inv(c) && OpenKind(c.state) == Some(Url) && v == UrlEndOrStep(c, ch)
    ensures Good(c, v)
  {
    UrlStepGood(c, c.state, ch, UrlStep(c, c.state, ch));
  }

  lemma UrlGood(c: Core, ch: byte, v: Visit)
    requires Inv(c) && OpenKind(c.state) == Some(Url) && v == VisitRequestLine(c, ch)
    ensures Good(c, v)
  {
    UrlStepGood(c, c.state, ch, UrlStep(c, c.state, ch));
    UrlEndGood(c, ch, UrlEndOrStep(c, ch));
    assert v == Error(c, InvalidUrl) || v == UrlStep(c, c.state, ch) || v == UrlEndOrStep(c, ch);
  }

  lemma MethodGood(c: Core, ch: byte, v: Visit)
    requires Inv(c) && (c.state.StartReq? || c.state.ReqMethod?) && v == VisitRequestLine(c, ch)
    ensures Good(c, v)
  {
  }

  lemma VersionGood(c: Core, ch: byte, v: Visit)
    requires Inv(c) && PhaseOf(c.state).RequestLine? && v == VisitRequestLine(c, ch)
    requires !ReadsUrl(c.state) && !c.state.StartReq? && !c.state.ReqMethod?
    ensures Good(c, v)
  {
  }

  lemma CompleteGood(c: Core, client: Client, next: Next, v: Visit)
    requires Inv(c) && OpenKind(c.state).None? && !c.state.ChunkDataAlmostDone? && v == Complete(c, client, next)
    requires next.Advance? || next.Halt?
    ensures Good(c, v)
  {
  }

  lemma StartValueGood(c: Core, ch: byte, v: Visit)
    requires Inv(c) && OpenKind(c.state).None? && !c.state.ChunkDataAlmostDone? && v == StartValue(c, ch)
    ensures Good(c, v)
  {
  }

  lemma ValueStepGood(c: Core, ch: byte, a: ValueAcc)
    requires Inv(c) && c.state.HeaderValue? && a == ValueStep(Acc(c), ch)
    ensures a.bad || Inv(WithAcc(c, a))
  {
  }

  lemma FieldStepGood(h: HeaderState, index: nat, ch: byte, t: byte)
    requires FieldState(h)
    ensures FieldState(FieldStep(h, index, ch, t).0)
  {
  }

  lemma FieldStartGood(c: Core, ch: byte, client: Client, v: Visit)
    requires Inv(c) && c.state.HeaderFieldStart? && v == VisitHeader(c, ch, client)
    ensures Good(c, v)
  {
  }

  lemma FieldGood(c: Core, ch: byte, client: Client, v: Visit)
    requires Inv(c) && c.state.HeaderField? && v == VisitHeader(c, ch, client)
    ensures Good(c, v)
  {
    FieldStepGood(c.hstate, c.index, ch, Token(ch));
  }

  lemma ValueStartGood(c: Core, ch: byte, client: Client, v: Visit)
    requires Inv(c) && v == VisitHeader(c, ch, client)
    requires c.state.HeaderValueDiscardWs? || c.state.HeaderValueStart?
    ensures Good(c, v)
  {
    StartValueGood(c, ch, StartValue(c, ch));
  }

  lemma ValueGood(c: Core, ch: byte, client: Client, v: Visit)
    requires Inv(c) && v == VisitHeader(c, ch, client)
    requires c.state.HeaderValue?
    ensures Good(c, v)
  {
    ValueStepGood(c, ch, ValueStep(Acc(c), ch));
  }

  predicate BetweenLines(s: State) {
    s.HeaderAlmostDone? || s.HeaderValueLws? || s.HeaderValueDiscardWsAlmostDone? || s.HeaderValueDiscardLws?
  }

  lemma LineEndSound(c: Core, ch: byte, client: Client, v: Visit)
    requires Inv(c) && BetweenLines(c.state) && v == VisitHeader(c, ch, client)
    ensures Sound(c, v)
  {
  }

  lemma LineEndMarks(c: Core, ch: byte, client: Client, v: Visit)
    requires Inv(c) && BetweenLines(c.state) && v == VisitHeader(c, ch, client)
    ensures MarksFollow(c, v)
  {
  }

  lemma HeadersAlmostDoneGood(c: Core, ch: byte, client: Client, v: Visit)
    requires Inv(c) && c.state.HeadersAlmostDone? && v == VisitHeader(c, ch, client)
    ensures Good(c, v)
  {
    CompleteGood(c, client, Advance, Complete(c, client, Advance));
  }

  lemma HeadersDoneGood(c: Core, ch: byte, client: Client, v: Visit)
    requires Inv(c) && c.state.HeadersDone? && v == VisitHeader(c, ch, client)
    ensures Good(c, v)
  {
    CompleteGood(c, client, Advance, Complete(c, client, Advance));
    CompleteGood(c, client, Halt, Complete(c, client, Halt));
  }

  lemma ChunkHeadSound(c: Core, ch: byte, client: Client, v: Visit)
    requires Inv(c) && v == VisitBody(c, ch, client)
    requires c.state.ChunkSizeStart? || c.state.ChunkSize? || c.state.ChunkParameters?
    ensures Sound(c, v)
  {
  }

  lemma ChunkTailSound(c: Core, ch: byte, client: Client, v: Visit)
    requires Inv(c) && v == VisitBody(c, ch, client)
    requires c.state.ChunkSizeAlmostDone? || c.state.ChunkData? || c.state.ChunkDataAlmostDone?
             || c.state.ChunkDataDone?
    ensures Sound(c, v)
  {
  }

  lemma ChunkMarks(c: Core, ch: byte, client: Client, v: Visit)
    requires Inv(c) && v == VisitBody(c, ch, client) && InChunks(c.state)
    ensures MarksFollow(c, v)
  {
  }

  lemma IdentityGood(c: Core, ch: byte, client: Client, v: Visit)
    requires Inv(c) && PhaseOf(c.state).Bodies? && v == VisitBody(c, ch, client) && !InChunks(c.state)
    ensures Good(c, v)
  {
    CompleteGood(c, client, Advance, Complete(c, client, Advance));
  }

  /** Every byte, in every state the invariant allows. */
  lemma VisitGood(c: Core, ch: byte, client: Client)
    requires Inv(c)
    ensures Good(c, VisitByte(c, ch, client))
  {
    var v := VisitByte(c, ch, client);
    match PhaseOf(c.state) {
      case StatusLine =>
        if BeforeVersion(c.state) {
          StatusLineSound(c, ch, v);
        } else {
          StatusCodeSound(c, ch, v);
        }
        StatusLineMarks(c, ch, v);
      case RequestLine =>
        if c.state.ReqSpacesBeforeUrl? {
          UrlStartGood(c, ch, v);
        } else if OpenKind(c.state) == Some(Url) {
          UrlGood(c, ch, v);
        } else if c.state.StartReq? || c.state.ReqMethod? {
          MethodGood(c, ch, v);
        } else {
          VersionGood(c, ch, v);
        }
      case Headers =>
        if c.state.HeaderFieldStart? {
          FieldStartGood(c, ch, client, v);
        } else if c.state.HeaderField? {
          FieldGood(c, ch, client, v);
        } else if c.state.HeaderValueDiscardWs? || c.state.HeaderValueStart? {
          ValueStartGood(c, ch, client, v);
        } else if c.state.HeaderValue? {
          ValueGood(c, ch, client, v);
        } else if c.state.HeadersAlmostDone? {
          HeadersAlmostDoneGood(c, ch, client, v);
        } else if c.state.HeadersDone? {
          HeadersDoneGood(c, ch, client, v);
        } else {
          LineEndSound(c, ch, client, v);
          LineEndMarks(c, ch, client, v);
        }
      case Bodies =>
        if InChunks(c.state) {
          if c.state.ChunkSizeStart? || c.state.ChunkSize? || c.state.ChunkParameters? {
            ChunkHeadSound(c, ch, client, v);
          } else {
            ChunkTailSound(c, ch, client, v);
          }
          ChunkMarks(c, ch, client, v);
        } else {
          IdentityGood(c, ch, client, v);
        }
    }
  }
}
