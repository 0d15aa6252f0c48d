/** One case of the big switch of http_parser_execute, as a pure function of the
    parser and the byte (built with HTTP_PARSER_STRICT=0). */
module HttpCases {
  import opened Common
  import opened HttpTypes

  /** How a case ends: with `break`, with REEXECUTE(), by leaving the parser after
      this byte, at the error label, or in a failing assertion. */
  datatype Next = Advance | Reexec | Exit | Fail(error: ParseError) | Abort

  /** Which data callback a case runs: up to the current byte, or including it. */
  datatype Closing = NoClose | CloseBefore(kind: DataKind) | CloseAfter(kind: DataKind)

  /** Which notification a case runs, and whether a failing one consumes the byte. */
  datatype Firing = Silent | Fire(note: Note, advance: bool)

  /** What one case does, in this order: reset nread, set a mark if it is not set,
      update the parser, run a data callback, run a notification, go on. */
  datatype Case = Case(
    p: Parser, next: Next,
    mark: Option<DataKind> := None, close: Closing := NoClose, fire: Firing := Silent,
    resetNread: bool := false)

  function Go(p: Parser, s: State): Case { Case(p.(state := s), Advance) }

  function Stay(p: Parser): Case { Case(p, Advance) }

  function Error(p: Parser, e: ParseError): Case { Case(p, Fail(e)) }

  function MessageCompleted(p: Parser, next: Next, resetNread: bool): Case {
    Case(p.(state := StartState(p.typ)), next,
         fire := Fire(MessageComplete, true), resetNread := resetNread)
  }

  // ---------- URL characters ----------

  /** parse_url_char. */
  function UrlNext(s: State, ch: byte): (r: State)
    ensures r.Dead? || InUrl(r)
  {
    if ch == SP || ch == CR || ch == LF then Dead
    else if s.ReqSpacesBeforeUrl? then
      if ch == '/' as int || ch == '*' as int then ReqPath
      else if IsAlpha(ch) then ReqSchema else Dead
    else if s.ReqSchema? then
      if IsAlpha(ch) then ReqSchema else if ch == ':' as int then ReqSchemaSlash else Dead
    else if s.ReqSchemaSlash? then
      if ch == '/' as int then ReqSchemaSlashSlash else Dead
    else if s.ReqSchemaSlashSlash? then
      if ch == '/' as int then ReqServerStart else Dead
    else if s.ReqServerWithAt? then
      if ch == '@' as int then Dead else ServerNext(ch)
    else if s.ReqServerStart? || s.ReqServer? then ServerNext(ch)
    else if s.ReqPath? then
      if IsUrlChar(ch) then ReqPath
      else if ch == '?' as int then ReqQueryStringStart
      else if ch == '#' as int then ReqFragmentStart else Dead
    else if s.ReqQueryStringStart? || s.ReqQueryString? then QueryNext(ch)
    else if s.ReqFragmentStart? then
      if IsUrlChar(ch) || ch == '?' as int then ReqFragment
      else if ch == '#' as int then ReqFragmentStart else Dead
    else if s.ReqFragment? then
      if IsUrlChar(ch) || ch == '?' as int || ch == '#' as int then ReqFragment else Dead
    else Dead
  }

  function ServerNext(ch: byte): State {
    if ch == '/' as int then ReqPath
    else if ch == '?' as int then ReqQueryStringStart
    else if ch == '@' as int then ReqServerWithAt
    else if IsUserinfoChar(ch) || ch == '[' as int || ch == ']' as int then ReqServer
    else Dead
  }

  function QueryNext(ch: byte): State {
    if IsUrlChar(ch) || ch == '?' as int then ReqQueryString
    else if ch == '#' as int then ReqFragmentStart else Dead
  }

  predicate InUrl(s: State) {
    s.ReqSchema? || s.ReqSchemaSlash? || s.ReqSchemaSlashSlash? || s.ReqServerStart? ||
    s.ReqServer? || s.ReqServerWithAt? || s.ReqPath? || s.ReqQueryStringStart? ||
    s.ReqQueryString? || s.ReqFragmentStart? || s.ReqFragment?
  }

  function UrlCase(p: Parser, ch: byte): Case
    requires InUrl(p.state)
  {
    var open := p.state.ReqSchema? || p.state.ReqSchemaSlash? || p.state.ReqSchemaSlashSlash? ||
                p.state.ReqServerStart?;
    if open && (ch == SP || ch == CR || ch == LF) then Error(p, InvalidUrl)
    else if ch == SP then Case(p.(state := ReqHttpStart), Advance, close := CloseBefore(Url))
    else if ch == CR then
      Case(p.(major := 0, minor := 9, state := ReqLineAlmostDone), Advance, close := CloseBefore(Url))
    else if ch == LF then
      Case(p.(major := 0, minor := 9, state := HeaderFieldStart), Advance, close := CloseBefore(Url))
    else UrlReached(p, UrlNext(p.state, ch))
  }

  function UrlReached(p: Parser, s: State): Case {
    if s.Dead? then Error(p.(state := Dead), InvalidUrl) else Go(p, s)
  }

  function SpacesBeforeUrlCase(p: Parser, ch: byte): Case {
    if ch == SP then Stay(p)
    else
      var from := if p.verb.CONNECT? then ReqServerStart else ReqSpacesBeforeUrl;
      UrlReached(p, UrlNext(from, ch)).(mark := Some(Url))
  }

  // ---------- request and status line ----------

  /** The guess of the method by its first letter. */
  function FirstMethod(ch: byte): Option<Method> {
    if ch == 'C' as int then Some(CONNECT)
    else if ch == 'D' as int then Some(DELETE)
    else if ch == 'G' as int then Some(GET)
    else if ch == 'H' as int then Some(HEAD)
    else if ch == 'L' as int then Some(LOCK)
    else if ch == 'M' as int then Some(MKCOL)
    else if ch == 'N' as int then Some(NOTIFY)
    else if ch == 'O' as int then Some(OPTIONS)
    else if ch == 'P' as int then Some(POST)
    else if ch == 'R' as int then Some(REPORT)
    else if ch == 'S' as int then Some(SUBSCRIBE)
    else if ch == 'T' as int then Some(TRACE)
    else if ch == 'U' as int then Some(UNLOCK)
    else None
  }

  /** The corrected guess when byte number i is not the one expected for m. */
  function OtherMethod(m: Method, i: nat, ch: byte): Option<Method> {
    if m.CONNECT? then
      if i == 1 && ch == 'H' as int then Some(CHECKOUT)
      else if i == 2 && ch == 'P' as int then Some(COPY)
      else None
    else if m.MKCOL? then
      if i == 1 && ch == 'O' as int then Some(MOVE)
      else if i == 1 && ch == 'E' as int then Some(MERGE)
      else if i == 1 && ch == '-' as int then Some(MSEARCH)
      else if i == 2 && ch == 'A' as int then Some(MKACTIVITY)
      else if i == 3 && ch == 'A' as int then Some(MKCALENDAR)
      else None
    else if m.SUBSCRIBE? then
      if i == 1 && ch == 'E' as int then Some(SEARCH) else None
    else if i == 1 && m.POST? then
      if ch == 'R' as int then Some(PROPFIND)
      else if ch == 'U' as int then Some(PUT)
      else if ch == 'A' as int then Some(PATCH)
      else None
    else if i == 2 then
      if m.PUT? && ch == 'R' as int then Some(PURGE)
      else if m.UNLOCK? && ch == 'S' as int then Some(UNSUBSCRIBE)
      else None
    else if i == 4 && m.PROPFIND? && ch == 'P' as int then Some(PROPPATCH)
    else None
  }

  function MethodCase(p: Parser, ch: byte): Case {
    var expected := CharAt(MethodString(p.verb), p.index);
    if ch == 0 then Error(p, InvalidMethod)
    else if ch == SP && expected == 0 then Go(p.(index := p.index + 1), ReqSpacesBeforeUrl)
    else if ch == expected then Stay(p.(index := p.index + 1))
    else match OtherMethod(p.verb, p.index, ch)
      case Some(m) => Stay(p.(verb := m, index := p.index + 1))
      case None => Error(p, InvalidMethod)
  }

  function StartReqCase(p: Parser, ch: byte): Case {
    if ch == CR || ch == LF then Stay(p)
    else
      var q := p.(flags := NO_FLAGS, contentLength := ULLONG_MAX);
      if !IsAlpha(ch) then Error(q, InvalidMethod)
      else match FirstMethod(ch)
        case None => Error(q.(verb := DELETE, index := 1), InvalidMethod)
        case Some(m) =>
          Case(q.(verb := m, index := 1, state := ReqMethod), Advance, fire := Fire(MessageBegin, true))
  }

  function StartReqOrResCase(p: Parser, ch: byte): Case {
    if ch == CR || ch == LF then Stay(p)
    else
      var q := p.(flags := NO_FLAGS, contentLength := ULLONG_MAX);
      if ch == 'H' as int then
        Case(q.(state := ResOrRespH), Advance, fire := Fire(MessageBegin, true))
      else Case(q.(typ := Request, state := StartReq), Reexec)
  }

  function ResOrRespHCase(p: Parser, ch: byte): Case {
    if ch == 'T' as int then Go(p.(typ := Response), ResHT)
    else if ch != 'E' as int then Error(p, InvalidConstant)
    else Go(p.(typ := Request, verb := HEAD, index := 2), ReqMethod)
  }

  /** Note that a stray CR or LF before a status line also runs on_message_begin. */
  function StartResCase(p: Parser, ch: byte): Case {
    var q := p.(flags := NO_FLAGS, contentLength := ULLONG_MAX);
    if ch == 'H' as int then Case(q.(state := ResH), Advance, fire := Fire(MessageBegin, true))
    else if ch == CR || ch == LF then Case(q, Advance, fire := Fire(MessageBegin, true))
    else Error(q, InvalidConstant)
  }

  /** A further decimal digit of a number that may have at most three. */
  function AddDigit(n: nat, ch: byte): nat
    requires IsNum(ch)
  {
    n * 10 + (ch - '0' as int)
  }

  function MajorCase(p: Parser, ch: byte, minorState: State): Case {
    if ch == '.' as int then Go(p, minorState)
    else if !IsNum(ch) then Error(p, InvalidVersion)
    else
      var q := p.(major := AddDigit(p.major, ch));
      if q.major > 999 then Error(q, InvalidVersion) else Stay(q)
  }

  function MinorDigitCase(p: Parser, ch: byte): Case {
    if !IsNum(ch) then Error(p, InvalidVersion)
    else
      var q := p.(minor := AddDigit(p.minor, ch));
      if q.minor > 999 then Error(q, InvalidVersion) else Stay(q)
  }

  function StatusCodeCase(p: Parser, ch: byte): Case {
    if IsNum(ch) then
      var q := p.(statusCode := AddDigit(p.statusCode, ch));
      if q.statusCode > 999 then Error(q, InvalidStatus) else Stay(q)
    else if ch == SP then Go(p, ResStatusStart)
    else if ch == CR then Go(p, ResLineAlmostDone)
    else if ch == LF then Go(p, HeaderFieldStart)
    else Error(p, InvalidStatus)
  }

  function StatusStartCase(p: Parser, ch: byte): Case {
    if ch == CR then Go(p, ResLineAlmostDone)
    else if ch == LF then Go(p, HeaderFieldStart)
    else Case(p.(state := ResStatus, index := 0), Advance, mark := Some(Status))
  }

  function StatusCase(p: Parser, ch: byte): Case {
    if ch == CR then Case(p.(state := ResLineAlmostDone), Advance, close := CloseBefore(Status))
    else if ch == LF then Case(p.(state := HeaderFieldStart), Advance, close := CloseBefore(Status))
    else Stay(p)
  }

  // ---------- header lines ----------

  /** Matches one more character of a keyword: on a mismatch the state is `no`,
      on the last character `done`. */
  function MatchMore(word: string, i: nat, c: int, no: HeaderState, done: HeaderState, more: HeaderState): (r: HeaderState)
    ensures c != 0 ==> r == no || r == done || (r == more && i < |word| - 1)
  {
    if i > |word| || c != CharAt(word, i) then no
    else if i == |word| - 1 then done
    else more
  }

  /** The header state and keyword index after one more character of a header name;
      c is the token value of ch. */
  function FieldNext(h: HeaderState, i: nat, c: byte, ch: byte): (HeaderState, nat) {
    match h
    case General => (General, i)
    case C => (if c == 'o' as int then CO else General, i + 1)
    case CO => (if c == 'n' as int then CON else General, i + 1)
    case CON =>
      (if c == 'n' as int then MatchingConnection
       else if c == 't' as int then MatchingContentLength else General, i + 1)
    case MatchingConnection =>
      (MatchMore("connection", i + 1, c, General, Connection, h), i + 1)
    case MatchingProxyConnection =>
      (MatchMore("proxy-connection", i + 1, c, General, Connection, h), i + 1)
    case MatchingContentLength =>
      (MatchMore("content-length", i + 1, c, General, ContentLength, h), i + 1)
    case MatchingTransferEncoding =>
      (MatchMore("transfer-encoding", i + 1, c, General, TransferEncoding, h), i + 1)
    case MatchingUpgrade =>
      (MatchMore("upgrade", i + 1, c, General, Upgrade, h), i + 1)
    case Connection => (if ch != SP then General else h, i)
    case ContentLength => (if ch != SP then General else h, i)
    case TransferEncoding => (if ch != SP then General else h, i)
    case Upgrade => (if ch != SP then General else h, i)
    case _ => (h, i)
  }

  function FieldFirst(c: byte): HeaderState {
    if c == 'c' as int then C
    else if c == 'p' as int then MatchingProxyConnection
    else if c == 't' as int then MatchingTransferEncoding
    else if c == 'u' as int then MatchingUpgrade
    else General
  }

  function FieldStartCase(p: Parser, ch: byte): Case {
    if ch == CR then Go(p, HeadersAlmostDone)
    else if ch == LF then Case(p.(state := HeadersAlmostDone), Reexec)
    else if Token(ch) == 0 then Error(p, InvalidHeaderToken)
    else Case(p.(index := 0, state := HeaderField, headerState := FieldFirst(Token(ch))), Advance,
              mark := Some(Field))
  }

  function FieldCase(p: Parser, ch: byte): Case {
    var c := Token(ch);
    if c != 0 then
      var (h, i) := FieldNext(p.headerState, p.index, c, ch);
      Stay(p.(headerState := h, index := i))
    else if ch == ':' as int then
      Case(p.(state := HeaderValueDiscardWs), Advance, close := CloseBefore(Field))
    else Error(p, InvalidHeaderToken)
  }

  function DiscardWsCase(p: Parser, ch: byte): Case {
    if ch == SP || ch == TAB then Stay(p)
    else if ch == CR then Go(p, HeaderValueDiscardWsAlmostDone)
    else if ch == LF then Go(p, HeaderValueDiscardLws)
    else ValueStartCase(p, ch)
  }

  function ConnectionToken(c: byte): HeaderState {
    if c == 'k' as int then MatchingConnectionKeepAlive
    else if c == 'c' as int then MatchingConnectionClose
    else if c == 'u' as int then MatchingConnectionUpgrade
    else MatchingConnectionToken
  }

  function ValueStartCase(p: Parser, ch: byte): Case {
    var q := p.(state := HeaderValue, index := 0);
    var c := Lower(ch);
    var r := match p.headerState
      case Upgrade => q.(flags := q.flags.(upgrade := true), headerState := General)
      case TransferEncoding =>
        q.(headerState := if c == 'c' as int then MatchingTransferEncodingChunked else General)
      case ContentLength => if IsNum(ch) then q.(contentLength := ch - '0' as int) else q
      case Connection => q.(headerState := ConnectionToken(c))
      case MatchingConnectionTokenStart => q
      case _ => q.(headerState := General);
    if p.headerState.ContentLength? && !IsNum(ch) then
      Error(r, InvalidContentLength).(mark := Some(Value))
    else Case(r, Advance, mark := Some(Value))
  }

  /** The flags after a value whose last header state is h. */
  function ValueFlags(f: Flags, h: HeaderState): (r: Flags)
    ensures r.trailing == f.trailing && r.skipBody == f.skipBody && (f.chunked ==> r.chunked)
  {
    match h
    case ConnectionKeepAlive => f.(keepAlive := true)
    case ConnectionClose => f.(close := true)
    case ConnectionUpgrade => f.(connectionUpgrade := true)
    case TransferEncodingChunked => f.(chunked := true)
    case _ => f
  }

  /** The parser after one more character of a value that is neither a line end
      nor a content length. */
  function ValueNext(p: Parser, ch: byte): (q: Parser)
    ensures q.state == p.state
    ensures q.flags.trailing == p.flags.trailing && q.flags.skipBody == p.flags.skipBody
  {
    var c := Lower(ch);
    var i := p.index;
    match p.headerState
    case General => p
    case MatchingTransferEncodingChunked =>
      p.(index := i + 1,
         headerState := MatchMore("chunked", i + 1, c, General, TransferEncodingChunked, p.headerState))
    case MatchingConnectionTokenStart =>
      if ConnectionToken(c) != MatchingConnectionToken then p.(headerState := ConnectionToken(c))
      else if StrictToken(c) != 0 then p.(headerState := MatchingConnectionToken)
      else if c == SP || c == TAB then p
      else p.(headerState := General)
    case MatchingConnectionKeepAlive =>
      p.(index := i + 1,
         headerState := MatchMore("keep-alive", i + 1, c, MatchingConnectionToken, ConnectionKeepAlive, p.headerState))
    case MatchingConnectionClose =>
      p.(index := i + 1,
         headerState := MatchMore("close", i + 1, c, MatchingConnectionToken, ConnectionClose, p.headerState))
    case MatchingConnectionUpgrade =>
      p.(index := i + 1,
         headerState := MatchMore("upgrade", i + 1, c, MatchingConnectionToken, ConnectionUpgrade, p.headerState))
    case MatchingConnectionToken =>
      if ch == ',' as int then p.(headerState := MatchingConnectionTokenStart, index := 0) else p
    case TransferEncodingChunked => if ch != SP then p.(headerState := General) else p
    case ConnectionKeepAlive => ConnectionTokenEnd(p, ch)
    case ConnectionClose => ConnectionTokenEnd(p, ch)
    case ConnectionUpgrade => ConnectionTokenEnd(p, ch)
    case _ => p.(headerState := General)
  }

  function ConnectionTokenEnd(p: Parser, ch: byte): Parser {
    if ch == ',' as int then
      p.(flags := ValueFlags(p.flags, p.headerState), headerState := MatchingConnectionTokenStart, index := 0)
    else if ch != SP then p.(headerState := MatchingConnectionToken)
    else p
  }

  /** One more digit of Content-Length, under the overflow guard of the source. */
  function AddLengthDigit(n: nat, ch: byte): Option<nat> {
    if !IsNum(ch) || (ULLONG_MAX - 10) / 10 < n then None
    else Some(n * 10 + (ch - '0' as int))
  }

  function ValueCase(p: Parser, ch: byte): Case {
    if ch == CR then Case(p.(state := HeaderAlmostDone), Advance, close := CloseBefore(Value))
    else if ch == LF then Case(p.(state := HeaderAlmostDone), Reexec, close := CloseBefore(Value))
    else if p.headerState.ContentLength? then
      if ch == SP then Stay(p)
      else match AddLengthDigit(p.contentLength, ch)
        case None => Error(p, InvalidContentLength)
        case Some(n) => Stay(p.(contentLength := n))
    else Stay(ValueNext(p, ch))
  }

  function ValueLwsCase(p: Parser, ch: byte): Case {
    if ch == SP || ch == TAB then Case(p.(state := HeaderValueStart), Reexec)
    else Case(p.(flags := ValueFlags(p.flags, p.headerState), state := HeaderFieldStart), Reexec)
  }

  /** A header without a value still reports one, of length 0. */
  function DiscardLwsCase(p: Parser, ch: byte): Case {
    if ch == SP || ch == TAB then Go(p, HeaderValueDiscardWs)
    else Case(p.(flags := ValueFlags(p.flags, p.headerState), state := HeaderFieldStart), Reexec,
              mark := Some(Value), close := CloseBefore(Value))
  }

  function HeadersAlmostDoneCase(p: Parser): Case {
    if p.flags.trailing then
      Case(p.(state := MessageDone), Reexec, fire := Fire(ChunkComplete, false))
    else
      Case(p.(state := HeadersDone,
              upgrade := (p.flags.upgrade && p.flags.connectionUpgrade) || p.verb.CONNECT?),
           Reexec, fire := Fire(HeadersComplete, false))
  }

  // ---------- message framing ----------

  /** http_message_needs_eof. */
  predicate NeedsEof(p: Parser) {
    !p.typ.Request? &&
    !(p.statusCode / 100 == 1 || p.statusCode == 204 || p.statusCode == 304 || p.flags.skipBody) &&
    !(p.flags.chunked || p.contentLength != ULLONG_MAX)
  }

  /** http_should_keep_alive. */
  predicate ShouldKeepAlive(p: Parser) {
    (if p.major > 0 && p.minor > 0 then !p.flags.close else p.flags.keepAlive) && !NeedsEof(p)
  }

  predicate HasBody(p: Parser) {
    p.flags.chunked || (p.contentLength > 0 && p.contentLength != ULLONG_MAX)
  }

  function HeadersDoneCase(p: Parser): Case {
    if p.upgrade && (p.verb.CONNECT? || p.flags.skipBody || !HasBody(p)) then
      MessageCompleted(p, Exit, true)
    else if p.flags.skipBody then MessageCompleted(p, Advance, true)
    else if p.flags.chunked then Go(p, ChunkSizeStart).(resetNread := true)
    else if p.contentLength == 0 then MessageCompleted(p, Advance, true)
    else if p.contentLength != ULLONG_MAX then Go(p, BodyIdentity).(resetNread := true)
    else if p.typ.Request? || !NeedsEof(p) then MessageCompleted(p, Advance, true)
    else Go(p, BodyIdentityEof).(resetNread := true)
  }

  /** A body of known length, seen one byte at a time. */
  function BodyIdentityCase(p: Parser): Case {
    if p.contentLength == 0 then Case(p, Abort) else
    var q := p.(contentLength := p.contentLength - 1);
    if q.contentLength == 0 then
      Case(q.(state := MessageDone), Reexec, mark := Some(Body), close := CloseAfter(Body))
    else Case(q, Advance, mark := Some(Body))
  }

  function MessageDoneCase(p: Parser): Case {
    MessageCompleted(p, if p.upgrade then Exit else Advance, false)
  }

  function ChunkSizeStartCase(p: Parser, ch: byte): Case {
    if Unhex(ch) == -1 then Error(p, InvalidChunkSize)
    else Go(p.(contentLength := Unhex(ch)), ChunkSize)
  }

  /** One more digit of a chunk size, under the overflow guard of the source. */
  function AddChunkDigit(n: nat, d: nat): Option<nat> {
    if (ULLONG_MAX - 16) / 16 < n then None else Some(n * 16 + d)
  }

  function ChunkSizeCase(p: Parser, ch: byte): Case {
    if ch == CR then Go(p, ChunkSizeAlmostDone)
    else if Unhex(ch) == -1 then
      if ch == ';' as int || ch == SP then Go(p, ChunkParameters) else Error(p, InvalidChunkSize)
    else match AddChunkDigit(p.contentLength, Unhex(ch))
      case None => Error(p, InvalidContentLength)
      case Some(n) => Stay(p.(contentLength := n))
  }

  function ChunkSizeAlmostDoneCase(p: Parser): Case {
    Case(if p.contentLength == 0 then p.(flags := p.flags.(trailing := true), state := HeaderFieldStart)
         else p.(state := ChunkData),
         Advance, fire := Fire(ChunkHeader, true), resetNread := true)
  }

  /** Chunk data, seen one byte at a time. */
  function ChunkDataCase(p: Parser): Case {
    if p.contentLength == 0 then Case(p, Abort) else
    var q := p.(contentLength := p.contentLength - 1);
    Case(if q.contentLength == 0 then q.(state := ChunkDataAlmostDone) else q, Advance, mark := Some(Body))
  }

  // ---------- the switch ----------

  predicate InChunk(s: State) {
    s.ChunkSizeStart? || s.ChunkSize? || s.ChunkParameters? || s.ChunkSizeAlmostDone? ||
    s.ChunkData? || s.ChunkDataAlmostDone? || s.ChunkDataDone?
  }

  /** The assertions of the source at the head of the case for p's state and byte. */
  predicate AssertionsHold(p: Parser, nread: nat) {
    var s := p.state;
    && (s.ChunkSizeStart? ==> nread == 1)
    && (InChunk(s) ==> p.flags.chunked)
    && (s.ChunkData? || s.BodyIdentity? ==> p.contentLength != 0 && p.contentLength != ULLONG_MAX)
    && (s.ChunkDataAlmostDone? ==> p.contentLength == 0)
    && (s.HeaderField? ==> IsFieldState(p.headerState))
    && (s.HeaderValue? ==> !p.headerState.Connection? && !p.headerState.TransferEncoding?)
    && (s.ReqMethod? ==> p.index <= |MethodString(p.verb)|)
  }

  /** The header states that the loop over a header name knows about. */
  predicate IsFieldState(h: HeaderState) {
    h.General? || h.C? || h.CO? || h.CON? || h.MatchingConnection? || h.MatchingProxyConnection? ||
    h.MatchingContentLength? || h.MatchingTransferEncoding? || h.MatchingUpgrade? ||
    h.Connection? || h.ContentLength? || h.TransferEncoding? || h.Upgrade?
  }

  /** The parts of a message; they group the cases of the switch. */
  datatype Part = StatusPart | RequestPart | UrlPart | HeaderPart | BodyPart

  function Phase(s: State): Part {
    if InUrl(s) then UrlPart
    else if s.HeaderFieldStart? || s.HeaderField? || s.HeaderValueDiscardWs? ||
            s.HeaderValueDiscardWsAlmostDone? || s.HeaderValueDiscardLws? || s.HeaderValueStart? ||
            s.HeaderValue? || s.HeaderAlmostDone? || s.HeaderValueLws? || s.HeadersAlmostDone? then HeaderPart
    else if s.HeadersDone? || s.BodyIdentity? || s.BodyIdentityEof? || s.MessageDone? ||
            s.ChunkSizeStart? || s.ChunkSize? || s.ChunkParameters? || s.ChunkSizeAlmostDone? ||
            s.ChunkData? || s.ChunkDataAlmostDone? || s.ChunkDataDone? then BodyPart
    else if s.StartReqOrRes? || s.ResOrRespH? || s.StartRes? || s.ResH? || s.ResHT? || s.ResHTT? ||
            s.ResHTTP? || s.ResFirstHttpMajor? || s.ResHttpMajor? || s.ResFirstHttpMinor? ||
            s.ResHttpMinor? || s.ResFirstStatusCode? || s.ResStatusCode? || s.ResStatusStart? ||
            s.ResStatus? || s.ResLineAlmostDone? then StatusPart
    else RequestPart
  }

  /** Bounds the number of REEXECUTE() jumps from a state. */
  function Rank(s: State): nat {
    if s.HeadersAlmostDone? || s.BodyIdentity? || s.HeaderValue? || s.StartReqOrRes? then 1
    else if s.HeaderFieldStart? then 2
    else if s.HeaderValueLws? || s.HeaderValueDiscardLws? then 3
    else 0
  }

  function CaseOf(p: Parser, ch: byte): (k: Case)
    ensures k.next.Reexec? ==> Rank(k.p.state) < Rank(p.state)
  {
    match Phase(p.state)
    case StatusPart => StatusLineCase(p, ch)
    case RequestPart => RequestLineCase(p, ch)
    case UrlPart => UrlCase(p, ch)
    case HeaderPart => HeaderCase(p, ch)
    case BodyPart => BodyCase(p, ch)
  }

  function StatusLineCase(p: Parser, ch: byte): (k: Case)
    requires Phase(p.state).StatusPart?
    ensures k.next.Reexec? ==> Rank(k.p.state) < Rank(p.state)
  {
    match p.state
    case StartReqOrRes => StartReqOrResCase(p, ch)
    case ResOrRespH => ResOrRespHCase(p, ch)
    case StartRes => StartResCase(p, ch)
    case ResH => Go(p, ResHT)
    case ResHT => Go(p, ResHTT)
    case ResHTT => Go(p, ResHTTP)
    case ResHTTP => Go(p, ResFirstHttpMajor)
    case ResFirstHttpMajor =>
      if IsNum(ch) then Go(p.(major := ch - '0' as int), ResHttpMajor) else Error(p, InvalidVersion)
    case ResHttpMajor => MajorCase(p, ch, ResFirstHttpMinor)
    case ResFirstHttpMinor =>
      if IsNum(ch) then Go(p.(minor := ch - '0' as int), ResHttpMinor) else Error(p, InvalidVersion)
    case ResHttpMinor =>
      if ch == SP then Go(p, ResFirstStatusCode) else MinorDigitCase(p, ch)
    case ResFirstStatusCode =>
      if IsNum(ch) then Go(p.(statusCode := ch - '0' as int), ResStatusCode)
      else if ch == SP then Stay(p) else Error(p, InvalidStatus)
    case ResStatusCode => StatusCodeCase(p, ch)
    case ResStatusStart => StatusStartCase(p, ch)
    case ResStatus => StatusCase(p, ch)
    case ResLineAlmostDone => Go(p, HeaderFieldStart)
  }

  function RequestLineCase(p: Parser, ch: byte): (k: Case)
    requires Phase(p.state).RequestPart?
    ensures !k.next.Reexec?
  {
    match p.state
    case Dead => if ch == CR || ch == LF then Stay(p) else Error(p, ClosedConnection)
    case StartReq => StartReqCase(p, ch)
    case ReqMethod => MethodCase(p, ch)
    case ReqSpacesBeforeUrl => SpacesBeforeUrlCase(p, ch)
    case ReqHttpStart =>
      if ch == 'H' as int then Go(p, ReqHttpH)
      else if ch == SP then Stay(p) else Error(p, InvalidConstant)
    case ReqHttpH => Go(p, ReqHttpHT)
    case ReqHttpHT => Go(p, ReqHttpHTT)
    case ReqHttpHTT => Go(p, ReqHttpHTTP)
    case ReqHttpHTTP => Go(p, ReqFirstHttpMajor)
    case ReqFirstHttpMajor =>
      if IsNum(ch) && ch != '0' as int then Go(p.(major := ch - '0' as int), ReqHttpMajor)
      else Error(p, InvalidVersion)
    case ReqHttpMajor => MajorCase(p, ch, ReqFirstHttpMinor)
    case ReqFirstHttpMinor =>
      if IsNum(ch) then Go(p.(minor := ch - '0' as int), ReqHttpMinor) else Error(p, InvalidVersion)
    case ReqHttpMinor =>
      if ch == CR then Go(p, ReqLineAlmostDone)
      else if ch == LF then Go(p, HeaderFieldStart) else MinorDigitCase(p, ch)
    case ReqLineAlmostDone => if ch == LF then Go(p, HeaderFieldStart) else Error(p, LfExpected)
  }

  function HeaderCase(p: Parser, ch: byte): (k: Case)
    requires Phase(p.state).HeaderPart?
    ensures k.next.Reexec? ==> Rank(k.p.state) < Rank(p.state)
  {
    match p.state
    case HeaderFieldStart => FieldStartCase(p, ch)
    case HeaderField => FieldCase(p, ch)
    case HeaderValueDiscardWs => DiscardWsCase(p, ch)
    case HeaderValueDiscardWsAlmostDone => Go(p, HeaderValueDiscardLws)
    case HeaderValueDiscardLws => DiscardLwsCase(p, ch)
    case HeaderValueStart => ValueStartCase(p, ch)
    case HeaderValue => ValueCase(p, ch)
    case HeaderAlmostDone => Go(p, HeaderValueLws)
    case HeaderValueLws => ValueLwsCase(p, ch)
    case HeadersAlmostDone => HeadersAlmostDoneCase(p)
  }

  function BodyCase(p: Parser, ch: byte): (k: Case)
    requires Phase(p.state).BodyPart?
    ensures k.next.Reexec? ==> Rank(k.p.state) < Rank(p.state)
  {
    match p.state
    case HeadersDone => HeadersDoneCase(p)
    case BodyIdentity => BodyIdentityCase(p)
    case BodyIdentityEof => Case(p, Advance, mark := Some(Body))
    case MessageDone => MessageDoneCase(p)
    case ChunkSizeStart => ChunkSizeStartCase(p, ch)
    case ChunkSize => ChunkSizeCase(p, ch)
    case ChunkParameters => if ch == CR then Go(p, ChunkSizeAlmostDone) else Stay(p)
    case ChunkSizeAlmostDone => ChunkSizeAlmostDoneCase(p)
    case ChunkData => ChunkDataCase(p)
    case ChunkDataAlmostDone => Case(p.(state := ChunkDataDone), Advance, close := CloseBefore(Body))
    case ChunkDataDone =>
      Case(p.(state := ChunkSizeStart), Advance, fire := Fire(ChunkComplete, true), resetNread := true)
  }
}
