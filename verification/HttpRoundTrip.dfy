/** The round trip of messages: requests and responses, written down, are read as what they are. */
module HttpRoundTrip {
  import opened Common
  import opened HttpTypes
  import opened HttpCases
  import opened HttpMachine
  import HttpInvariant
  import HttpSplit
  import opened HttpReads
  import opened HttpFirstLines
  import opened HttpMessages
  import opened HttpBodies
  import HttpKeywords
  import HttpLines
  import HttpValues
  import HttpUrl
  import HttpUrlParts
  import opened HttpUrlJoin
  import HttpLimit
  import HttpCounting
  import opened HttpExecute

  // ---------- messages ----------

  datatype Content = Nothing | Bytes(bytes: seq<byte>) | Chunks(chunks: seq<Chunk>, last: Chunk)

  datatype Request = Request(verb: Method, url: Url, version: Version, headers: seq<Header>, content: Content)

  datatype Response = Response(
    version: Version, code: seq<byte>, phrase: seq<byte>, headers: seq<Header>, content: Content)

  function MethodBytes(m: Method): seq<byte> {
    var s := MethodString(m);
    seq(|s|, i requires 0 <= i < |s| => s[i] as int % 256)
  }

  function ChunksText(cs: seq<Chunk>): seq<byte> {
    if cs == [] then [] else ChunkText(cs[0]) + ChunksText(cs[1..])
  }

  function ContentText(c: Content): seq<byte> {
    match c
    case Nothing => []
    case Bytes(w) => w
    case Chunks(cs, last) => ChunksText(cs) + (SizeText(last) + [CR, LF])
  }

  /** What comes behind the first line. */
  function RestText(hs: seq<Header>, c: Content): seq<byte> { HeadersText(hs) + ([CR, LF] + ContentText(c)) }

  function RequestText(r: Request): seq<byte> {
    MethodBytes(r.verb) + [SP] + (Join(r.url) + [SP] + (VersionText(r.version) + [CR, LF] + RestText(r.headers, r.content)))
  }

  function ResponseText(r: Response): seq<byte> {
    VersionText(r.version) + ([SP] + r.code + ([SP] + r.phrase + ([CR, LF] + RestText(r.headers, r.content))))
  }

  // ---------- what is reported of them ----------

  /** What a callback is told: data, or what it reads from the parser. */
  datatype Report =
    | Began
    | Piece(kind: DataKind, bytes: seq<byte>)
    | ReqHead(verb: Method, major: nat, minor: nat, flags: Flags, length: nat)
    | ResHead(statusCode: nat, major: nat, minor: nat, flags: Flags, length: nat)
    | ChunkBegan(size: nat)
    | ChunkEnded
    | Ended(persists: bool)

  function Show(e: Event): Report {
    match e
    case Data(kind, bytes) => Piece(kind, bytes)
    case Notify(note, p) =>
      match note
      case MessageBegin => Began
      case HeadersComplete =>
        if p.typ.Request? then ReqHead(p.verb, p.major, p.minor, p.flags, p.contentLength)
        else ResHead(p.statusCode, p.major, p.minor, p.flags, p.contentLength)
      case ChunkHeader => ChunkBegan(p.contentLength)
      case ChunkComplete => ChunkEnded
      case MessageComplete => Ended(ShouldKeepAlive(p))
  }

  function ShowAll(trace: seq<Event>): seq<Report> { seq(|trace|, i requires 0 <= i < |trace| => Show(trace[i])) }

  function HeaderReports(hs: seq<Header>): seq<Report> {
    if hs == [] then [] else [Piece(Field, hs[0].name), Piece(Value, hs[0].value)] + HeaderReports(hs[1..])
  }

  function ChunkReports(cs: seq<Chunk>): seq<Report> {
    if cs == [] then [] else [ChunkBegan(|cs[0].data|), Piece(Body, cs[0].data), ChunkEnded] + ChunkReports(cs[1..])
  }

  function ContentReports(c: Content): seq<Report> {
    match c
    case Nothing => []
    case Bytes(w) => [Piece(Body, w)]
    case Chunks(cs, _) => ChunkReports(cs) + [ChunkBegan(0), ChunkEnded]
  }

  /** From version 1.1 on a connection persists unless it is to be closed, before that only if it is
      to be kept; a version is taken for 1.1 or later if both its numbers are positive. */
  predicate Persists(v: Version, hs: seq<Header>)
    requires AreDigits(v.major) && AreDigits(v.minor)
  {
    var flags := FlagsOf(NO_FLAGS, hs);
    if Spelled(v.major) >= 1 && Spelled(v.minor) >= 1 then !flags.close else flags.keepAlive
  }

  function RequestReports(r: Request): seq<Report>
    requires GoodRequest(r)
  {
    [Began, Piece(HttpTypes.Url, Join(r.url))] + HeaderReports(r.headers)
    + [ReqHead(r.verb, Spelled(r.version.major), Spelled(r.version.minor), FlagsOf(NO_FLAGS, r.headers),
               LengthOf(ULLONG_MAX, r.headers))]
    + ContentReports(r.content) + [Ended(Persists(r.version, r.headers))]
  }

  function ResponseHead(r: Response): seq<Report>
    requires GoodHead(r)
  {
    [Began] + (if r.phrase == [] then [] else [Piece(Status, r.phrase)]) + HeaderReports(r.headers)
    + [ResHead(Spelled(r.code), Spelled(r.version.major), Spelled(r.version.minor), FlagsOf(NO_FLAGS, r.headers),
               LengthOf(ULLONG_MAX, r.headers))]
  }

  function ResponseReports(r: Response): seq<Report>
    requires GoodHead(r)
  {
    ResponseHead(r) + ContentReports(r.content) + [Ended(Persists(r.version, r.headers))]
  }

  // ---------- well-formed messages ----------

  predicate GoodChunks(cs: seq<Chunk>) { forall i | 0 <= i < |cs| :: GoodSize(cs[i]) && cs[i].data != [] }

  /** The content is what the header announces. */
  predicate ContentFits(c: Content, kind: Kind) {
    match c
    case Nothing => kind.NoBody?
    case Bytes(w) => kind == OfLength(|w|)
    case Chunks(cs, last) =>
      kind.InChunks? && GoodChunks(cs) && GoodSize(last) && last.data == []
  }

  /** What the flags and the length say of the body. */
  function KindBy(request: bool, status: nat, flags: Flags, length: nat): Kind {
    if flags.chunked then InChunks
    else if length == 0 then NoBody
    else if length != ULLONG_MAX then OfLength(length)
    else if request || IsBodiless(status) then NoBody
    else ToTheEnd
  }

  predicate GoodHeaders(hs: seq<Header>) {
    && (forall i | 0 <= i < |hs| :: GoodHeader(hs[i]))
    && !(FlagsOf(NO_FLAGS, hs).upgrade && FlagsOf(NO_FLAGS, hs).connectionUpgrade)
  }

  predicate GoodRequest(r: Request) {
    && !r.verb.CONNECT? && GoodUrl(r.url, false) && GoodVersion(r.version) && GoodHeaders(r.headers)
    && ContentFits(r.content, KindBy(true, 0, FlagsOf(NO_FLAGS, r.headers), LengthOf(ULLONG_MAX, r.headers)))
  }

  predicate GoodHead(r: Response) {
    && GoodResVersion(r.version) && AreDigits(r.code) && Spelled(r.code) <= 999 && HttpLines.IsText(r.phrase)
    && GoodHeaders(r.headers)
  }

  /** What the header of a response says of its body. */
  function ResponseKind(r: Response): Kind
    requires GoodHead(r)
  {
    KindBy(false, Spelled(r.code), FlagsOf(NO_FLAGS, r.headers), LengthOf(ULLONG_MAX, r.headers))
  }

  predicate GoodResponse(r: Response) { GoodHead(r) && ContentFits(r.content, ResponseKind(r)) }

  // ---------- traces ----------

  /** Data of this kind would not be joined to the last event. */
  predicate Fresh(trace: seq<Event>, kind: DataKind) {
    trace != [] ==> !trace[|trace|-1].Data? || trace[|trace|-1].kind != kind
  }

  lemma NoteShows(trace: seq<Event>, note: Note, seen: Parser)
    ensures ShowAll(trace + [Notify(note, seen)]) == ShowAll(trace) + [Show(Notify(note, seen))]
    ensures forall k: DataKind :: Fresh(trace + [Notify(note, seen)], k)
  {
  }

  lemma DataShows(trace: seq<Event>, kind: DataKind, bytes: seq<byte>)
    requires Fresh(trace, kind)
    ensures ShowAll(Emit(trace, Data(kind, bytes))) == ShowAll(trace) + [Piece(kind, bytes)]
    ensures forall k: DataKind | k != kind :: Fresh(Emit(trace, Data(kind, bytes)), k)
  {
  }

  lemma {:induction false} HeadersShow(trace: seq<Event>, hs: seq<Header>)
    requires Fresh(trace, Field)
    ensures ShowAll(HeadersEvents(trace, hs)) == ShowAll(trace) + HeaderReports(hs)
    decreases |hs|
  {
    hide Emit, ShowAll, Fresh;
    if hs != [] {
      var t := Emit(trace, Data(Field, hs[0].name));
      DataShows(trace, Field, hs[0].name);
      DataShows(t, Value, hs[0].value);
      HeadersShow(LineEvents(trace, hs[0]), hs[1..]);
    }
  }

  // ---------- the content ----------

  lemma ChunkShows(trace: seq<Event>, p: Parser, c: Chunk)
    ensures ShowAll(ChunkEvents(trace, p, c)) == ShowAll(trace) + [ChunkBegan(|c.data|), Piece(Body, c.data), ChunkEnded]
  {
    hide Emit, ShowAll, Fresh;
    var q := p.(contentLength := |c.data|, state := ChunkData);
    var t := trace + [Notify(ChunkHeader, q)];
    NoteShows(trace, ChunkHeader, q);
    DataShows(t, Body, c.data);
    NoteShows(Emit(t, Data(Body, c.data)), ChunkComplete, p.(contentLength := 0, state := ChunkSizeStart));
  }

  lemma FirstChunk(cs: seq<Chunk>)
    requires GoodChunks(cs) && cs != []
    ensures GoodSize(cs[0]) && cs[0].data != [] && GoodChunks(cs[1..])
  {
    hide GoodSize;
  }

  lemma FirstOfChunks(cs: seq<Chunk>)
    requires cs != []
    ensures ChunksText(cs) == ChunkText(cs[0]) + ChunksText(cs[1..])
    ensures ChunkReports(cs) == [ChunkBegan(|cs[0].data|), Piece(Body, cs[0].data), ChunkEnded] + ChunkReports(cs[1..])
  {
    hide ChunkText;
  }

  lemma Regroup<T>(a: seq<T>, b: seq<T>, c: seq<T>)
    ensures a + b + c == a + (b + c)
  {
  }

  /** A chunk, and what follows it. */
  lemma ChunkFirst(p: Parser, trace: seq<Event>, cs: seq<Chunk>, n: Machine)
    requires p.state.ChunkSizeStart? && cs != [] && GoodSize(cs[0]) && cs[0].data != []
    requires var t := ChunkEvents(trace, p, cs[0]);
             && Reads(At(p.(contentLength := 0), t, Closed), ChunksText(cs[1..]), n)
             && ShowAll(n.trace) == ShowAll(t) + ChunkReports(cs[1..])
    ensures Reads(At(p, trace, Closed), ChunksText(cs), n) && ShowAll(n.trace) == ShowAll(trace) + ChunkReports(cs)
  {
    hide *;
    FirstOfChunks(cs);
    ChunkIsHeard(p, trace, cs[0]);
    ChunkShows(trace, p, cs[0]);
    ReadsAppend(At(p, trace, Closed), ChunkText(cs[0]), At(p.(contentLength := 0), ChunkEvents(trace, p, cs[0]), Closed),
                ChunksText(cs[1..]), n);
    Regroup(ShowAll(trace), [ChunkBegan(|cs[0].data|), Piece(Body, cs[0].data), ChunkEnded], ChunkReports(cs[1..]));
  }

  lemma {:induction false} ChunksAreHeard(p: Parser, trace: seq<Event>, cs: seq<Chunk>) returns (n: Machine)
    requires p.state.ChunkSizeStart? && GoodChunks(cs)
    ensures n == At(p.(contentLength := n.p.contentLength), n.trace, Closed)
    ensures Reads(At(p, trace, Closed), ChunksText(cs), n) && ShowAll(n.trace) == ShowAll(trace) + ChunkReports(cs)
    decreases |cs|
  {
    hide Reads, GoodSize, ChunkEvents, ShowAll, GoodChunks;
    if cs == [] {
      n := At(p, trace, Closed);
      ReadsNothing(n);
    } else {
      FirstChunk(cs);
      n := ChunksAreHeard(p.(contentLength := 0), ChunkEvents(trace, p, cs[0]), cs[1..]);
      ChunkFirst(p, trace, cs, n);
    }
  }

  lemma LastShows(trace: seq<Event>, p: Parser)
    ensures var end := p.(contentLength := 0, flags := p.flags.(trailing := true), state := StartState(p.typ));
            ShowAll(LastEvents(trace, p)) == ShowAll(trace) + [ChunkBegan(0), ChunkEnded] + [Ended(ShouldKeepAlive(end))]
  {
    hide ShowAll, Fresh;
    var q := p.(contentLength := 0, flags := p.flags.(trailing := true), state := HeaderFieldStart);
    NoteShows(trace, ChunkHeader, q);
    NoteShows(trace + [Notify(ChunkHeader, q)], ChunkComplete, q.(state := MessageDone));
    NoteShows(trace + [Notify(ChunkHeader, q)] + [Notify(ChunkComplete, q.(state := MessageDone))], MessageComplete,
              q.(state := StartState(p.typ)));
  }

  /** Where a message ends, the next one can begin. */
  predicate EndsMessage(p: Parser, n: Machine) {
    && n == At(n.p, n.trace, Closed) && n.p.state == StartState(p.typ) && n.p.typ == p.typ && n.p.verb == p.verb
    && n.p.major == p.major && n.p.minor == p.minor && n.p.flags.(trailing := p.flags.trailing) == p.flags && !NeedsEof(n.p)
  }

  lemma ContentIsHeard(p: Parser, trace: seq<Event>, c: Content) returns (n: Machine)
    requires ContentFits(c, KindOf(p)) && p.state == AfterHeader(p) && !p.upgrade && !KindOf(p).NoBody? && Fresh(trace, Body)
    ensures Reads(At(p, trace, Closed), ContentText(c), n) && EndsMessage(p, n)
    ensures ShowAll(n.trace) == ShowAll(trace) + ContentReports(c) + [Ended(ShouldKeepAlive(n.p))]
  {
    hide Reads, GoodSize, Emit, ShowAll, Fresh, LastEvents, ChunksText, SizeText, ChunkReports;
    if c.Bytes? {
      var q, t := p.(contentLength := 0, state := StartState(p.typ)), Emit(trace, Data(Body, c.bytes));
      BodyIsHeard(p, trace, c.bytes);
      DataShows(trace, Body, c.bytes);
      NoteShows(t, MessageComplete, q);
      n := At(q, t + [Notify(MessageComplete, q)], Closed);
    } else {
      var m := ChunksAreHeard(p, trace, c.chunks);
      LastChunkIsHeard(m.p, m.trace, c.last);
      LastShows(m.trace, m.p);
      n := At(m.p.(contentLength := 0, flags := m.p.flags.(trailing := true), state := StartState(p.typ)),
              LastEvents(m.trace, m.p), Closed);
      ReadsAppend(At(p, trace, Closed), ChunksText(c.chunks), m, SizeText(c.last) + [CR, LF], n);
    }
  }

  /** The blank line and the content. */
  lemma MessageEnds(p: Parser, trace: seq<Event>, c: Content) returns (n: Machine)
    requires p.state.HeaderFieldStart? && !p.flags.trailing && !p.flags.skipBody && StaysHttp(p)
    requires ContentFits(c, KindOf(Announced(p)))
    ensures Reads(At(p, trace, Closed), [CR, LF] + ContentText(c), n) && EndsMessage(p, n)
    ensures ShowAll(n.trace) ==
              ShowAll(trace) + [Show(Notify(HeadersComplete, Announced(p)))] + ContentReports(c) + [Ended(ShouldKeepAlive(n.p))]
  {
    hide Reads, Emit, ShowAll, Fresh, KindOf, ChunkReports;
    var h := Announced(p);
    var q, t := h.(state := AfterHeader(h)), trace + [Notify(HeadersComplete, h)];
    HeaderEnds(p, trace);
    NoteShows(trace, HeadersComplete, h);
    SameKind(h);
    if c.Nothing? {
      NoteShows(t, MessageComplete, q);
      n := At(q, t + [Notify(MessageComplete, q)], Closed);
      assert [CR, LF] + [] == [CR, LF];
    } else {
      n := ContentIsHeard(q, t, c);
      ReadsAppend(At(p, trace, Closed), [CR, LF], At(q, t, Closed), ContentText(c), n);
    }
  }

  lemma SameKind(p: Parser)
    ensures KindOf(p.(state := AfterHeader(p))) == KindOf(p)
    ensures KindOf(p).NoBody? ==> !NeedsEof(p.(state := AfterHeader(p)))
  {
  }

  // ---------- requests ----------

  lemma LateRank(x: seq<byte>, u: Url, i: nat)
    requires Regions(x, false, u) && ServerOff(u) <= i < |x|
    ensures !HttpUrl.After(x, false, i).Dead? && HttpUrlParts.R(x, false, i) >= 3
  {
    hide HttpUrl.After, HttpUrlParts.R, ServerText, Join;
  }

  lemma GoesBeyondSchema(u: Url)
    requires GoodUrl(u, false)
    ensures |Join(u)| > ServerOff(u)
  {
    if u.server.Some? {
      HostNotEmpty(u.server.value);
    }
    hide GoodServer, GoodRest;
  }

  /** The state behind a URL is one in which it may end. */
  lemma UrlMayEnd(u: Url)
    requires GoodUrl(u, false)
    ensures var x := Join(u);
            x != [] && HttpUrl.Alive(x, false, |x|) && MayEnd(HttpUrl.After(x, false, |x| - 1))
  {
    var x := Join(u);
    JoinHolds(u);
    UrlRegions(x, false, u);
    RegionsAreAlive(x, false, u);
    GoesBeyondSchema(u);
    LateRank(x, u, |x| - 1);
    HttpUrl.AfterInUrl(x, false, |x| - 1);
    hide Regions, TextsAt, GoodUrl, HttpUrl.After, Join, HttpUrl.Alive;
  }

  lemma LettersOf(m: Method)
    ensures var s, w := MethodString(m), MethodBytes(m);
            |w| == |s| > 0 && forall i | 0 <= i < |w| :: 32 < w[i] == s[i] as int < 128
  {
    HttpKeywords.GuessStarts(m);
    forall i | 0 <= i < |MethodString(m)| ensures 32 < MethodString(m)[i] as int < 128 {
      HttpKeywords.LettersAreBytes(m, i);
    }
    hide MethodString;
  }

  /** Where a message can begin: behind another one, or at the start. */
  predicate CanBegin(p: Parser, typ: ParserType) { p.typ == typ && p.state == StartState(typ) && !p.verb.CONNECT? }

  lemma MethodAndUrl(p: Parser, trace: seq<Event>, m: Method, u: Url) returns (q: Parser, t: seq<Event>)
    requires p.state.StartReq? && GoodUrl(u, false) && !m.CONNECT?
    ensures q == AfterMethod(p, m, q.index).(state := ReqHttpStart)
    ensures Reads(At(p, trace, Closed), MethodBytes(m) + [SP] + (Join(u) + [SP]), At(q, t, Closed))
    ensures Fresh(t, Field) && ShowAll(t) == ShowAll(trace) + [Began, Piece(HttpTypes.Url, Join(u))]
  {
    hide Reads, Join, GoodUrl, ShowAll, Fresh, Emit, MethodBytes, MethodString, MayEnd, HttpUrl.Alive;
    LettersOf(m);
    var x := Join(u);
    var begun, index := MethodIsHeard(p, trace, MethodBytes(m), m);
    var a, s := AfterMethod(p, m, index), trace + [Notify(MessageBegin, begun)];
    q, t := a.(state := ReqHttpStart), Emit(s, Data(HttpTypes.Url, x));
    UrlMayEnd(u);
    UrlIsHeard(a, s, x);
    ReadsAppend(At(p, trace, Closed), MethodBytes(m) + [SP], At(a, s, Closed), x + [SP], At(q, t, Closed));
    NoteShows(trace, MessageBegin, begun);
    DataShows(s, HttpTypes.Url, x);
  }

  /** What comes behind the first line: the headers, and the content that they announce. */
  lemma RestIsHeard(p: Parser, trace: seq<Event>, hs: seq<Header>, c: Content, kind: Kind) returns (n: Machine)
    requires p.state.HeaderFieldStart? && p.flags == NO_FLAGS && p.contentLength == ULLONG_MAX && !p.verb.CONNECT?
    requires GoodHeaders(hs) && ContentFits(c, kind) && Fresh(trace, Field)
    requires kind == KindBy(p.typ.Request?, p.statusCode, FlagsOf(NO_FLAGS, hs), LengthOf(ULLONG_MAX, hs))
    ensures Reads(At(p, trace, Closed), RestText(hs, c), n) && EndsMessage(p.(flags := FlagsOf(NO_FLAGS, hs)), n)
    ensures var flags, length := FlagsOf(NO_FLAGS, hs), LengthOf(ULLONG_MAX, hs);
            ShowAll(n.trace) == ShowAll(trace) + HeaderReports(hs)
              + [if p.typ.Request? then ReqHead(p.verb, p.major, p.minor, flags, length)
                 else ResHead(p.statusCode, p.major, p.minor, flags, length)]
              + ContentReports(c) + [Ended(ShouldKeepAlive(n.p))]
  {
    hide Reads, ShowAll, Fresh, GoodHeader, FlagsOf, LengthOf, Settle, ContentFits, KindBy, KindOf, HeadersText, ContentText,
         HeadersEvents, HeaderReports, ContentReports;
    var q := HeadersAreHeard(p, trace, hs);
    var r := Settle(q);
    FlagsStay(NO_FLAGS, hs);
    KindIsBy(r);
    HeadersShow(trace, hs);
    n := MessageEnds(r, HeadersEvents(trace, hs), c);
    BehindHeaders(p, q, trace, HeadersText(hs), HeadersEvents(trace, hs), [CR, LF] + ContentText(c), n);
  }

  lemma {:induction false} FlagsStay(f: Flags, hs: seq<Header>)
    ensures FlagsOf(f, hs).trailing == f.trailing && FlagsOf(f, hs).skipBody == f.skipBody
    decreases |hs|
  {
    hide HttpKeywords.IsKeyword, Mentions, HttpValues.IsWord;
    if hs != [] {
      FlagsStay(FlagsWith(f, hs[0]), hs[1..]);
    }
  }

  /** Whether the connection persists behind a message that says where it ends. */
  lemma PersistsIs(n: Parser, v: Version, hs: seq<Header>)
    requires AreDigits(v.major) && AreDigits(v.minor) && n.major == Spelled(v.major) && n.minor == Spelled(v.minor)
    requires n.flags.(trailing := false) == FlagsOf(NO_FLAGS, hs) && !NeedsEof(n)
    ensures ShouldKeepAlive(n) == Persists(v, hs)
  {
    hide FlagsOf, Spelled, NeedsEof;
  }

  lemma KindIsBy(p: Parser)
    ensures KindOf(Announced(p)) == KindBy(p.typ.Request?, p.statusCode, p.flags, p.contentLength)
    ensures KindOf(Announced(p)).ToTheEnd? && !p.flags.skipBody ==> NeedsEof(Announced(p).(state := BodyIdentityEof))
  {
  }

  /** The round trip of a request, wherever one can begin: it is reported as what it is, and the
      next one can begin. */
  lemma RequestIsHeard(p: Parser, trace: seq<Event>, r: Request) returns (n: Machine)
    requires CanBegin(p, ParserType.Request) && GoodRequest(r)
    ensures Reads(At(p, trace, Closed), RequestText(r), n)
    ensures n == At(n.p, n.trace, Closed) && CanBegin(n.p, ParserType.Request)
    ensures ShowAll(n.trace) == ShowAll(trace) + RequestReports(r)
  {
    hide Reads, ShowAll, Fresh, Join, GoodUrl, GoodHeader, ContentFits, MethodBytes, VersionText, Spelled, RestText,
         FlagsOf, LengthOf, HeaderReports, ContentReports;
    var q, t := MethodAndUrl(p, trace, r.verb, r.url);
    ReqVersionIsRead(q, t, r.version);
    var h := q.(major := Spelled(r.version.major), minor := Spelled(r.version.minor), state := HeaderFieldStart);
    n := RestIsHeard(h, t, r.headers, r.content,
                     KindBy(true, h.statusCode, FlagsOf(NO_FLAGS, r.headers), LengthOf(ULLONG_MAX, r.headers)));
    var rest := RestText(r.headers, r.content);
    ReadsAppend(At(q, t, Closed), VersionText(r.version) + [CR, LF], At(h, t, Closed), rest, n);
    ReadsAppend(At(p, trace, Closed), MethodBytes(r.verb) + [SP] + (Join(r.url) + [SP]), At(q, t, Closed),
                VersionText(r.version) + [CR, LF] + rest, n);
    RequestBytes(MethodBytes(r.verb), Join(r.url), VersionText(r.version), rest);
    FlagsStay(NO_FLAGS, r.headers);
    PersistsIs(n.p, r.version, r.headers);
  }

  lemma RequestBytes(m: seq<byte>, x: seq<byte>, v: seq<byte>, rest: seq<byte>)
    ensures m + [SP] + (x + [SP]) + (v + [CR, LF] + rest) == m + [SP] + (x + [SP] + (v + [CR, LF] + rest))
  {
  }

  function RequestsText(rs: seq<Request>): seq<byte> {
    if rs == [] then [] else RequestText(rs[0]) + RequestsText(rs[1..])
  }

  function RequestsReports(rs: seq<Request>): seq<Report>
    requires forall i | 0 <= i < |rs| :: GoodRequest(rs[i])
  {
    if rs == [] then [] else RequestReports(rs[0]) + RequestsReports(rs[1..])
  }

  /** Requests behind one another are told apart. */
  lemma {:induction false} RequestsAreHeard(p: Parser, trace: seq<Event>, rs: seq<Request>) returns (n: Machine)
    requires CanBegin(p, ParserType.Request) && forall i | 0 <= i < |rs| :: GoodRequest(rs[i])
    ensures Reads(At(p, trace, Closed), RequestsText(rs), n)
    ensures n == At(n.p, n.trace, Closed) && CanBegin(n.p, ParserType.Request)
    ensures ShowAll(n.trace) == ShowAll(trace) + RequestsReports(rs)
    decreases |rs|
  {
    hide Reads, ShowAll, RequestText, RequestReports, GoodRequest, CanBegin;
    if rs == [] {
      n := At(p, trace, Closed);
      ReadsNothing(n);
    } else {
      var m := RequestIsHeard(p, trace, rs[0]);
      n := RequestsAreHeard(m.p, m.trace, rs[1..]);
      ReadsAppend(At(p, trace, Closed), RequestText(rs[0]), m, RequestsText(rs[1..]), n);
    }
  }

  // ---------- responses ----------

  /** The status line. */
  lemma StatusLineIsHeard(p: Parser, trace: seq<Event>, v: Version, code: seq<byte>, phrase: seq<byte>)
    returns (q: Parser, t: seq<Event>)
    requires p.state.StartRes? && GoodResVersion(v) && AreDigits(code) && Spelled(code) <= 999 && HttpLines.IsText(phrase)
    ensures q == p.(flags := NO_FLAGS, contentLength := ULLONG_MAX, major := Spelled(v.major), minor := Spelled(v.minor),
                    statusCode := Spelled(code), state := HeaderFieldStart, index := q.index)
    ensures Reads(At(p, trace, Closed), VersionText(v) + ([SP] + code + ([SP] + phrase + [CR, LF])), At(q, t, Closed))
    ensures Fresh(t, Field)
    ensures ShowAll(t) == ShowAll(trace) + [Began] + if phrase == [] then [] else [Piece(Status, phrase)]
  {
    hide Reads, ShowAll, Fresh, Emit, Spelled, HttpLines.IsText;
    var begun := ResHttpIsRead(p, trace);
    var s := trace + [Notify(MessageBegin, begun)];
    var a := begun.(state := ResFirstHttpMajor);
    ResNumbersAreRead(a, s, v, code);
    var b := a.(major := Spelled(v.major), minor := Spelled(v.minor), statusCode := Spelled(code), state := ResStatusStart);
    PhraseIsHeard(b, s, phrase);
    q := b.(state := HeaderFieldStart, index := if phrase == [] then b.index else 0);
    t := if phrase == [] then s else Emit(s, Data(Status, phrase));
    var numbers := v.major + ([46] + (v.minor + ([SP] + (code + [SP]))));
    ReadsAppend(At(a, s, Closed), numbers, At(b, s, Closed), phrase + [CR, LF], At(q, t, Closed));
    ReadsAppend(At(p, trace, Closed), HTTP, At(a, s, Closed), numbers + (phrase + [CR, LF]), At(q, t, Closed));
    StatusLineBytes(v, code, phrase);
    NoteShows(trace, MessageBegin, begun);
    if phrase != [] {
      DataShows(s, Status, phrase);
    }
  }

  lemma StatusLineBytes(v: Version, code: seq<byte>, phrase: seq<byte>)
    ensures HTTP + (v.major + ([46] + (v.minor + ([SP] + (code + [SP])))) + (phrase + [CR, LF]))
              == VersionText(v) + ([SP] + code + ([SP] + phrase + [CR, LF]))
  {
  }

  lemma ResponseBytes(r: Response)
    ensures VersionText(r.version) + ([SP] + r.code + ([SP] + r.phrase + [CR, LF])) + RestText(r.headers, r.content) == ResponseText(r)
  {
    hide VersionText, RestText;
  }

  /** The round trip of a response that says where it ends. */
  lemma ResponseIsHeard(p: Parser, trace: seq<Event>, r: Response) returns (n: Machine)
    requires CanBegin(p, ParserType.Response) && GoodResponse(r)
    ensures Reads(At(p, trace, Closed), ResponseText(r), n)
    ensures n == At(n.p, n.trace, Closed) && CanBegin(n.p, ParserType.Response)
    ensures ShowAll(n.trace) == ShowAll(trace) + ResponseReports(r)
  {
    hide Reads, ShowAll, Fresh, GoodHeader, ContentFits, VersionText, Spelled, RestText, FlagsOf, LengthOf, HeaderReports,
         ContentReports, KindBy, ResponseText;
    var q, t := StatusLineIsHeard(p, trace, r.version, r.code, r.phrase);
    n := RestIsHeard(q, t, r.headers, r.content,
                     KindBy(false, q.statusCode, FlagsOf(NO_FLAGS, r.headers), LengthOf(ULLONG_MAX, r.headers)));
    ReadsAppend(At(p, trace, Closed), VersionText(r.version) + ([SP] + r.code + ([SP] + r.phrase + [CR, LF])), At(q, t, Closed),
                RestText(r.headers, r.content), n);
    ResponseBytes(r);
    FlagsStay(NO_FLAGS, r.headers);
    PersistsIs(n.p, r.version, r.headers);
  }

  /** The header of a response whose body ends with the stream. */
  lemma UnendedHead(p: Parser, trace: seq<Event>, r: Response, w: seq<byte>) returns (n: Machine)
    requires CanBegin(p, ParserType.Response) && GoodHead(r) && ResponseKind(r).ToTheEnd? && r.content.Nothing?
    ensures Reads(At(p, trace, Closed), ResponseText(r) + w, n)
    ensures n == At(n.p, n.trace, OpenBody(w)) && n.p.state.BodyIdentityEof? && NeedsEof(n.p) && Fresh(n.trace, Body)
    ensures ShowAll(n.trace) == ShowAll(trace) + ResponseHead(r)
  {
    hide Reads, ShowAll, Fresh, GoodHeader, VersionText, Spelled, FlagsOf, LengthOf, HeaderReports, KindBy, ResponseText,
         HeadersText, HeadersEvents, Settle, KindOf;
    var q, t := StatusLineIsHeard(p, trace, r.version, r.code, r.phrase);
    var a := HeadersAreHeard(q, t, r.headers);
    var h, u := Announced(Settle(a)), HeadersEvents(t, r.headers);
    FlagsStay(NO_FLAGS, r.headers);
    KindIsBy(Settle(a));
    HeadersShow(t, r.headers);
    HeaderEnds(Settle(a), u);
    NoteShows(u, HeadersComplete, h);
    var body := At(h.(state := BodyIdentityEof), u + [Notify(HeadersComplete, h)], Closed);
    n := body.(open := OpenBody(w));
    HttpBodies.RestIsHeard(body.p, body.trace, w);
    ReadsAppend(At(Settle(a), u, Closed), [CR, LF], body, w, n);
    BehindHeaders(q, a, t, HeadersText(r.headers), u, [CR, LF] + w, n);
    ReadsAppend(At(p, trace, Closed), VersionText(r.version) + ([SP] + r.code + ([SP] + r.phrase + [CR, LF])), At(q, t, Closed),
                HeadersText(r.headers) + ([CR, LF] + w), n);
    ResponseBytes(r);
    MoreBytes(r, w);
  }

  lemma MoreBytes(r: Response, w: seq<byte>)
    requires r.content.Nothing?
    ensures VersionText(r.version) + ([SP] + r.code + ([SP] + r.phrase + [CR, LF])) + (HeadersText(r.headers) + ([CR, LF] + w))
              == ResponseText(r) + w
  {
    ResponseBytes(r);
    hide VersionText, HeadersText, ResponseText;
  }

  /** The round trip of a response that does not say where it ends: it ends with the stream. */
  lemma UnendedIsHeard(c: Session, r: Response, w: seq<byte>)
    requires c.errno == OK && CanBegin(c.p, ParserType.Response)
    requires GoodHead(r) && ResponseKind(r).ToTheEnd? && r.content.Nothing?
    ensures var call := Execute(HttpSplit.Willing(), c, ResponseText(r) + w);
            var end := Execute(HttpSplit.Willing(), call.after, []);
            && call.outcome.Running? && call.count == |ResponseText(r) + w| && end.count == 0 && end.after.errno == OK
            && ShowAll(end.after.trace)
                 == ShowAll(c.trace) + ResponseHead(r) + (if w == [] then [] else [Piece(Body, w)]) + [Ended(false)]
  {
    hide Reads, ShowAll, Fresh, GoodHead, ResponseKind, ResponseHead, ResponseText, Emit, NeedsEof;
    var text := ResponseText(r) + w;
    var n := UnendedHead(c.p, c.trace, r, w);
    NotEmptyText(r);
    CallHears(c, text, n);
    var t := Flushed(n);
    if w != [] {
      DataShows(n.trace, Body, w);
    }
    EndIsHeard(Execute(HttpSplit.Willing(), c, text).after);
  }

  lemma NotEmptyText(r: Response)
    ensures ResponseText(r) != []
  {
    hide RestText;
  }

  lemma EndIsHeard(c: Session)
    requires c.errno == OK && c.p.state.BodyIdentityEof?
    ensures var end := Execute(HttpSplit.Willing(), c, []);
            end.count == 0 && end.after.errno == OK && ShowAll(end.after.trace) == ShowAll(c.trace) + [Ended(ShouldKeepAlive(c.p))]
  {
  }

  // ---------- streams in buffers ----------

  /** What is read by the machine is read by a call. */
  lemma CallHears(c: Session, w: seq<byte>, n: Machine)
    requires c.errno == OK && Reopen(c.p.state).Closed? && w != [] && Reads(At(c.p, c.trace, Closed), w, n)
    ensures var call := Execute(HttpSplit.Willing(), c, w);
            && call.outcome.Running? && call.count == |w|
            && call.after == Session(n.p, n.errno, call.after.nread, Flushed(n))
  {
    ReadsNread(At(c.p, c.trace, Closed), w, n, c.nread);
    assert Enter(c) == At(c.p, c.trace, Closed).(nread := c.nread);
    hide Run;
  }

  lemma {:induction false} RunningNeverFails(m: Machine, data: seq<byte>)
    requires Run(HttpSplit.Willing(), m, data).outcome.Running?
    ensures !HttpSplit.FailsInsideToken(HttpSplit.Willing(), m, data)
    decreases |data|
  {
    hide Step;
    if data != [] {
      RunningNeverFails(Step(HttpSplit.Willing(), m, data[0]).0, data[1..]);
    }
  }

  /** Cuts do not show in what is read to its end. */
  lemma {:induction false} NothingShows(c: Session, buffers: seq<seq<byte>>)
    requires c.errno == OK && buffers != [] && forall i | 0 <= i < |buffers| :: buffers[i] != []
    requires Run(HttpSplit.Willing(), Enter(c), HttpSplit.Flatten(buffers)).outcome.Running?
    ensures !HttpSplit.Shows(HttpSplit.Willing(), c, buffers)
    decreases |buffers|
  {
    hide Run, HttpSplit.FailsInsideToken, Reopen, EndOfStream;
    var policy, a := HttpSplit.Willing(), buffers[0];
    if |buffers| > 1 {
      var rest := HttpSplit.Flatten(buffers[1..]);
      var first := Execute(policy, c, a);
      HttpSplit.RunAppend(policy, Enter(c), a, rest);
      if first.outcome.Running? {
        assert rest != [] by { assert buffers[1] != []; }
        RunningNeverFails(Run(policy, Enter(c), a).m, rest);
        HttpSplit.RunningIsOk(policy, Enter(c), a);
        HttpSplit.SplitInvariance(policy, c, a, rest);
        NothingShows(first.after, buffers[1..]);
      }
    }
  }

  /** Requests behind one another are heard in whatever buffers they arrive. */
  lemma RequestsInBuffers(c: Session, rs: seq<Request>, buffers: seq<seq<byte>>)
    requires c.errno == OK && CanBegin(c.p, ParserType.Request) && forall i | 0 <= i < |rs| :: GoodRequest(rs[i])
    requires buffers != [] && forall i | 0 <= i < |buffers| :: buffers[i] != []
    requires HttpSplit.Flatten(buffers) == RequestsText(rs)
    ensures var call := HttpSplit.Feed(HttpSplit.Willing(), c, buffers);
            && call.outcome.Running? && call.count == |RequestsText(rs)| && call.after.errno == OK
            && CanBegin(call.after.p, ParserType.Request)
            && ShowAll(call.after.trace) == ShowAll(c.trace) + RequestsReports(rs)
  {
    hide RequestsText, RequestsReports, GoodRequest, ShowAll, Run, Reads, HttpSplit.Shows, HttpSplit.Feed, HttpSplit.Reported;
    var n := RequestsAreHeard(c.p, c.trace, rs);
    assert buffers[0] != [];
    CallHears(c, RequestsText(rs), n);
    HttpSplit.CutInvariance(HttpSplit.Willing(), c, buffers);
    NothingShows(c, buffers);
  }

  lemma TextIsNotEmpty(rs: seq<Request>)
    requires rs != []
    ensures RequestsText(rs) != []
  {
    hide MethodBytes, Join, VersionText, RestText;
  }

  /** The round trip on the object: a parser that waits for a request is given some. */
  method HearRequests(parser: HttpParser, rs: seq<Request>) returns (count: nat)
    requires parser.Valid() && parser.errno == OK && CanBegin(parser.Record(), ParserType.Request)
    requires rs != [] && forall i | 0 <= i < |rs| :: GoodRequest(rs[i])
    modifies parser
    ensures parser.Valid()
    ensures old(parser.nread) + |RequestsText(rs)| < MAX_HEADER_SIZE ==> parser.errno != HeaderOverflow
    ensures parser.errno != HeaderOverflow ==>
              && parser.errno == OK && count == |RequestsText(rs)| && CanBegin(parser.Record(), ParserType.Request)
              && ShowAll(Canon(parser.calls)) == ShowAll(Canon(old(parser.calls))) + RequestsReports(rs)
  {
    hide RequestsText, RequestsReports, GoodRequest, ShowAll, Reads, Canon, HttpInvariant.Inv, HttpLimit.Limited, Execute;
    ghost var c := parser.Session();
    var n := RequestsAreHeard(c.p, c.trace, rs);
    TextIsNotEmpty(rs);
    CallHears(c, RequestsText(rs), n);
    HttpCounting.LimitedIsExecute(HttpSplit.Willing(), c, RequestsText(rs));
    if c.nread + |RequestsText(rs)| < MAX_HEADER_SIZE {
      HttpCounting.FitsUnderLimit(HttpSplit.Willing(), c, RequestsText(rs));
    }
    count := parser.Execute(HttpSplit.Willing(), RequestsText(rs));
  }
}
