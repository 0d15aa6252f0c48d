/** Data model of the streaming HTTP parser: bytes, the enumerations of the C
    source, the parser record and the callback trace. */
module HttpTypes {
  import opened Common

  const CR: byte := 13
  const LF: byte := 10
  const SP: byte := 32
  const TAB: byte := 9

  /** The value of ULLONG_MAX, which the parser stores for "no Content-Length". */
  const ULLONG_MAX: nat := 0xFFFF_FFFF_FFFF_FFFF

  /** HTTP_MAX_HEADER_SIZE. */
  const MAX_HEADER_SIZE: nat := 80 * 1024

  // ---------- enumerations ----------

  datatype ParserType = Request | Response | Both

  datatype State =
    | Dead
    | StartReqOrRes | ResOrRespH | StartRes
    | ResH | ResHT | ResHTT | ResHTTP
    | ResFirstHttpMajor | ResHttpMajor | ResFirstHttpMinor | ResHttpMinor
    | ResFirstStatusCode | ResStatusCode | ResStatusStart | ResStatus | ResLineAlmostDone
    | StartReq | ReqMethod | ReqSpacesBeforeUrl
    | ReqSchema | ReqSchemaSlash | ReqSchemaSlashSlash
    | ReqServerStart | ReqServer | ReqServerWithAt
    | ReqPath | ReqQueryStringStart | ReqQueryString | ReqFragmentStart | ReqFragment
    | ReqHttpStart | ReqHttpH | ReqHttpHT | ReqHttpHTT | ReqHttpHTTP
    | ReqFirstHttpMajor | ReqHttpMajor | ReqFirstHttpMinor | ReqHttpMinor | ReqLineAlmostDone
    | HeaderFieldStart | HeaderField
    | HeaderValueDiscardWs | HeaderValueDiscardWsAlmostDone | HeaderValueDiscardLws
    | HeaderValueStart | HeaderValue | HeaderValueLws | HeaderAlmostDone
    | ChunkSizeStart | ChunkSize | ChunkParameters | ChunkSizeAlmostDone
    | HeadersAlmostDone | HeadersDone
    | ChunkData | ChunkDataAlmostDone | ChunkDataDone
    | BodyIdentity | BodyIdentityEof
    | MessageDone

  /** The states up to s_headers_done: the bytes they read count against the header limit. */
  predicate ParsingHeader(s: State) {
    !(s.ChunkData? || s.ChunkDataAlmostDone? || s.ChunkDataDone? ||
      s.BodyIdentity? || s.BodyIdentityEof? || s.MessageDone?)
  }

  datatype HeaderState =
    | General | C | CO | CON
    | MatchingConnection | MatchingProxyConnection | MatchingContentLength
    | MatchingTransferEncoding | MatchingUpgrade
    | Connection | ContentLength | TransferEncoding | Upgrade
    | MatchingTransferEncodingChunked
    | MatchingConnectionTokenStart | MatchingConnectionKeepAlive
    | MatchingConnectionClose | MatchingConnectionUpgrade | MatchingConnectionToken
    | TransferEncodingChunked
    | ConnectionKeepAlive | ConnectionClose | ConnectionUpgrade

  datatype Method =
    | DELETE | GET | HEAD | POST | PUT | CONNECT | OPTIONS | TRACE
    | COPY | LOCK | MKCOL | MOVE | PROPFIND | PROPPATCH | SEARCH | UNLOCK
    | REPORT | MKACTIVITY | CHECKOUT | MERGE
    | MSEARCH | NOTIFY | SUBSCRIBE | UNSUBSCRIBE
    | PATCH | PURGE | MKCALENDAR

  function MethodString(m: Method): string {
    match m
    case DELETE => "DELETE" case GET => "GET" case HEAD => "HEAD" case POST => "POST"
    case PUT => "PUT" case CONNECT => "CONNECT" case OPTIONS => "OPTIONS" case TRACE => "TRACE"
    case COPY => "COPY" case LOCK => "LOCK" case MKCOL => "MKCOL" case MOVE => "MOVE"
    case PROPFIND => "PROPFIND" case PROPPATCH => "PROPPATCH" case SEARCH => "SEARCH"
    case UNLOCK => "UNLOCK" case REPORT => "REPORT" case MKACTIVITY => "MKACTIVITY"
    case CHECKOUT => "CHECKOUT" case MERGE => "MERGE" case MSEARCH => "M-SEARCH"
    case NOTIFY => "NOTIFY" case SUBSCRIBE => "SUBSCRIBE" case UNSUBSCRIBE => "UNSUBSCRIBE"
    case PATCH => "PATCH" case PURGE => "PURGE" case MKCALENDAR => "MKCALENDAR"
  }

  datatype Errno =
    | OK
    | CbMessageBegin | CbHeadersComplete | CbMessageComplete | CbChunkHeader | CbChunkComplete
    | InvalidEofState | HeaderOverflow | ClosedConnection | InvalidVersion | InvalidStatus
    | InvalidMethod | InvalidUrl | LfExpected | InvalidHeaderToken | InvalidContentLength
    | InvalidChunkSize | InvalidConstant | Paused

  /** The errors of the parser itself, as opposed to those that callbacks cause. */
  predicate IsParseError(e: Errno) {
    e.ClosedConnection? || e.InvalidVersion? || e.InvalidStatus? || e.InvalidMethod? ||
    e.InvalidUrl? || e.LfExpected? || e.InvalidHeaderToken? || e.InvalidContentLength? ||
    e.InvalidChunkSize? || e.InvalidConstant?
  }

  type ParseError = e: Errno | IsParseError(e) witness InvalidUrl

  // ---------- the parser record ----------

  datatype Flags = Flags(
    chunked: bool, keepAlive: bool, close: bool, connectionUpgrade: bool,
    trailing: bool, upgrade: bool, skipBody: bool)

  const NO_FLAGS := Flags(false, false, false, false, false, false, false)

  /** The fields of struct http_parser, except nread and http_errno, which are kept beside it. */
  datatype Parser = Parser(
    typ: ParserType, flags: Flags, state: State, headerState: HeaderState, index: nat,
    contentLength: nat, major: nat, minor: nat, statusCode: nat, verb: Method,
    upgrade: bool)

  function StartState(typ: ParserType): State {
    if typ.Request? then StartReq else StartRes
  }

  function InitialParser(typ: ParserType): Parser {
    Parser(typ, NO_FLAGS,
           match typ case Request => StartReq case Response => StartRes case Both => StartReqOrRes,
           General, 0, 0, 0, 0, 0, DELETE, false)
  }

  // ---------- callbacks ----------

  datatype DataKind = Url | Status | Field | Value | Body

  datatype Note = MessageBegin | HeadersComplete | MessageComplete | ChunkHeader | ChunkComplete

  /** One callback invocation: a data callback with its bytes, or a notification
      together with the parser as the callback sees it. */
  datatype Event =
    | Data(kind: DataKind, bytes: seq<byte>)
    | Notify(note: Note, seen: Parser)

  /** What a notification callback does: its return code, and whether it paused the parser. */
  datatype Answer = Answer(code: nat, pause: bool)

  /** The application: a notification is answered as a function of what was reported so far. */
  type Policy = seq<Event> -> Answer

  function CallbackError(note: Note): Errno {
    match note
    case MessageBegin => CbMessageBegin
    case HeadersComplete => CbHeadersComplete
    case MessageComplete => CbMessageComplete
    case ChunkHeader => CbChunkHeader
    case ChunkComplete => CbChunkComplete
  }

  // ---------- traces up to the cutting of data ----------

  /** Appends an event; data of the kind that was reported last is joined to it. */
  function Emit(trace: seq<Event>, e: Event): seq<Event> {
    if e.Data? && |trace| > 0 && trace[|trace|-1].Data? && trace[|trace|-1].kind == e.kind then
      trace[..|trace|-1] + [Data(e.kind, trace[|trace|-1].bytes + e.bytes)]
    else
      trace + [e]
  }

  /** The trace of a list of callback invocations: adjacent data of one kind is joined. */
  function Canon(calls: seq<Event>): seq<Event> {
    if |calls| == 0 then [] else Emit(Canon(calls[..|calls|-1]), calls[|calls|-1])
  }

  lemma CanonSnoc(calls: seq<Event>, e: Event)
    ensures Canon(calls + [e]) == Emit(Canon(calls), e)
  {
    assert (calls + [e])[..|calls|] == calls;
  }

  /** Reporting data in two pieces or in one makes no difference to the trace. */
  lemma EmitJoins(trace: seq<Event>, k: DataKind, x: seq<byte>, y: seq<byte>)
    ensures Emit(Emit(trace, Data(k, x)), Data(k, y)) == Emit(trace, Data(k, x + y))
  {
    if |trace| > 0 && trace[|trace|-1].Data? && trace[|trace|-1].kind == k {
      assert trace[|trace|-1].bytes + x + y == trace[|trace|-1].bytes + (x + y);
    }
  }

  // ---------- character classes ----------

  /** LOWER: sets the bit that distinguishes small letters. */
  function Lower(b: byte): (r: byte)
    ensures r >= 32
  {
    if (b / 32) % 2 == 0 then b + 32 else b
  }

  predicate IsNum(b: byte) { '0' as int <= b <= '9' as int }

  predicate IsAlpha(b: byte) { 'a' as int <= Lower(b) <= 'z' as int }

  predicate IsMark(b: byte) {
    b == '-' as int || b == '_' as int || b == '.' as int || b == '!' as int || b == '~' as int ||
    b == '*' as int || b == '\'' as int || b == '(' as int || b == ')' as int
  }

  predicate IsUserinfoChar(b: byte) {
    IsAlpha(b) || IsNum(b) || IsMark(b) || b == '%' as int || b == ';' as int || b == ':' as int ||
    b == '&' as int || b == '=' as int || b == '+' as int || b == '$' as int || b == ',' as int
  }

  /** The bitmap normal_url_char, read without HTTP_PARSER_STRICT, or a byte with the top bit set. */
  predicate IsUrlChar(b: byte) {
    b == 9 || b == 12 || (33 <= b < 127 && b != '#' as int && b != '?' as int) || b >= 128
  }

  /** The table of header-token characters, which also lowers letters; 0 is "not a token". */
  function StrictToken(b: byte): byte {
    if 'A' as int <= b <= 'Z' as int then b + 32
    else if 'a' as int <= b <= 'z' as int || IsNum(b) then b
    else if b == 33 || 35 <= b <= 39 || b == 42 || b == 43 || b == 45 || b == 46 ||
            94 <= b <= 96 || b == 124 || b == 126 then b
    else 0
  }

  /** The token table without HTTP_PARSER_STRICT: a space is let through. */
  function Token(b: byte): byte { if b == SP then SP else StrictToken(b) }

  /** The table unhex: its upper half has no initialisers and is therefore 0, so
      every byte from 128 on reads as the digit 0. -1 is "not a digit". */
  function Unhex(b: byte): (v: int)
    ensures -1 <= v < 16
  {
    if '0' as int <= b <= '9' as int then b - '0' as int
    else if 'A' as int <= b <= 'F' as int then b - 'A' as int + 10
    else if 'a' as int <= b <= 'f' as int then b - 'a' as int + 10
    else if b >= 128 then 0
    else -1
  }

  /** A C string read at an index not beyond its terminator. */
  function CharAt(s: string, i: nat): int {
    if i < |s| then s[i] as int else 0
  }
}
