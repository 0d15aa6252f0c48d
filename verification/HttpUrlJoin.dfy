/** The round trip of a URL: parts that are well formed, joined with their delimiters, are taken
    apart again into just these parts. */
module HttpUrlJoin {
  import opened Common
  import opened HttpTypes
  import opened HttpCases
  import opened HttpAscii
  import opened HttpUrl
  import opened HttpUrlParts

  // ---------- parts, and the URL that they make ----------

  datatype Server = Server(userinfo: Option<seq<byte>>, host: seq<byte>, brackets: bool, port: Option<seq<byte>>)

  /** With a schema a server follows; without one there is a server alone, as for CONNECT, or none.
      Before the fragment there may be more than one '#'. */
  datatype Url = Url(
    schema: seq<byte>,
    server: Option<Server>,
    path: seq<byte>,
    query: Option<seq<byte>>,
    fragment: Option<seq<byte>>,
    hashes: seq<byte> := [])

  function ServerText(s: Server): seq<byte> {
    (if s.userinfo.Some? then s.userinfo.value + [64] else [])
    + (if s.brackets then [91] + s.host + [93] else s.host)
    + (if s.port.Some? then [58] + s.port.value else [])
  }

  function Join(u: Url): seq<byte> {
    (if u.schema != [] then u.schema + [58, 47, 47] else [])
    + (if u.server.Some? then ServerText(u.server.value) else [])
    + u.path
    + (if u.query.Some? then [63] + u.query.value else [])
    + (if u.fragment.Some? then [35] + (u.hashes + u.fragment.value) else [])
  }

  // ---------- well-formed parts ----------

  predicate GoodServer(s: Server) {
    && (s.userinfo.Some? ==> forall i | 0 <= i < |s.userinfo.value| :: IsUserinfoByte(s.userinfo.value[i]))
    && s.host != []
    && (forall i | 0 <= i < |s.host| :: if s.brackets then IsAddressByte(s.host[i]) else IsHostByte(s.host[i]))
    && (s.port.Some? ==>
          && s.port.value != [] && (forall i | 0 <= i < |s.port.value| :: IsDigit(s.port.value[i]))
          && Digits(s.port.value, 0, |s.port.value|) <= 0xffff)
  }

  /** A path begins with '/', or is "*" and what follows it if there is no server. */
  predicate GoodPath(u: Url) {
    && (u.path != [] ==> u.path[0] == 47 || (u.path[0] == 42 && u.server.None?))
    && (forall i | 1 <= i < |u.path| :: IsPathByte(u.path[i]))
    && (u.server.None? ==> u.path != [])
  }

  predicate AreHashes(w: seq<byte>) { forall i | 0 <= i < |w| :: w[i] == 35 }

  predicate GoodRest(u: Url) {
    && (u.query.Some? ==> forall i | 0 <= i < |u.query.value| :: IsPathByte(u.query.value[i]) || u.query.value[i] == 63)
    && (u.fragment.Some? ==>
          && (u.path != [] || u.query.Some?)
          && AreHashes(u.hashes) && (u.fragment.value != [] ==> u.fragment.value[0] != 35)
          && forall i | 0 <= i < |u.fragment.value| ::
               IsPathByte(u.fragment.value[i]) || u.fragment.value[i] == 63 || u.fragment.value[i] == 35)
  }

  predicate GoodUrl(u: Url, connect: bool) {
    && (forall i | 0 <= i < |u.schema| :: IsLetterByte(u.schema[i]))
    && (u.server.Some? ==> GoodServer(u.server.value)) && GoodPath(u) && GoodRest(u)
    && if connect then
         && u.schema == [] && u.server.Some? && u.server.value.port.Some? && u.path == []
         && u.query.None? && u.fragment.None?
         && (u.server.value.userinfo.Some? ==> u.server.value.userinfo.value == [])
       else u.server.Some? <==> u.schema != []
  }

  // ---------- where the parts are ----------

  /** Where the server, the path, the query and the fragment begin; and the length of it all. */
  function ServerOff(u: Url): nat { if u.schema != [] then |u.schema| + 3 else 0 }

  function PathOff(u: Url): nat { ServerOff(u) + if u.server.Some? then |ServerText(u.server.value)| else 0 }

  function QueryOff(u: Url): nat { PathOff(u) + |u.path| + if u.query.Some? then 1 else 0 }

  function FragmentOff(u: Url): nat {
    QueryOff(u) + (if u.query.Some? then |u.query.value| else 0) + if u.fragment.Some? then 1 + |u.hashes| else 0
  }

  function HostOff(u: Url): nat
    requires u.server.Some?
  {
    var s := u.server.value;
    ServerOff(u) + (if s.userinfo.Some? then |s.userinfo.value| + 1 else 0) + if s.brackets then 1 else 0
  }

  function PortOff(u: Url): nat
    requires u.server.Some?
  {
    HostOff(u) + |u.server.value.host| + (if u.server.value.brackets then 1 else 0) + 1
  }

  /** The span of a part, which is there if it is not empty. */
  function SpanFor(u: Url, f: UrlField): Span {
    match f
    case Schema => Span(0, |u.schema|)
    case Userinfo =>
      Span(ServerOff(u), if u.server.Some? && u.server.value.userinfo.Some? then |u.server.value.userinfo.value| else 0)
    case Host => if u.server.Some? then Span(HostOff(u), |u.server.value.host|) else Span(0, 0)
    case Port =>
      if u.server.Some? && u.server.value.port.Some? then Span(PortOff(u), |u.server.value.port.value|) else Span(0, 0)
    case Path => Span(PathOff(u), |u.path|)
    case Query => Span(QueryOff(u), if u.query.Some? then |u.query.value| else 0)
    case Fragment => Span(FragmentOff(u), if u.fragment.Some? then |u.fragment.value| else 0)
  }

  function SpansOf(u: Url): map<UrlField, Span> {
    map f | f in ALL_FIELDS && SpanFor(u, f).len > 0 :: SpanFor(u, f)
  }

  // ---------- forward through the automata ----------

  lemma NextIs(s: State, b: byte)
    ensures s.ReqSpacesBeforeUrl? ==>
              (IsLetterByte(b) ==> UrlNext(s, b).ReqSchema?) && (b == 47 || b == 42 ==> UrlNext(s, b).ReqPath?)
    ensures s.ReqSchema? ==>
              (IsLetterByte(b) ==> UrlNext(s, b).ReqSchema?) && (b == 58 ==> UrlNext(s, b).ReqSchemaSlash?)
    ensures s.ReqSchemaSlash? && b == 47 ==> UrlNext(s, b).ReqSchemaSlashSlash?
    ensures s.ReqSchemaSlashSlash? && b == 47 ==> UrlNext(s, b).ReqServerStart?
    ensures s.ReqPath? ==>
              && (IsPathByte(b) ==> UrlNext(s, b).ReqPath?) && (b == 63 ==> UrlNext(s, b).ReqQueryStringStart?)
              && (b == 35 ==> UrlNext(s, b).ReqFragmentStart?)
    ensures s.ReqQueryStringStart? || s.ReqQueryString? ==>
              && (IsPathByte(b) || b == 63 ==> UrlNext(s, b).ReqQueryString?)
              && (b == 35 ==> UrlNext(s, b).ReqFragmentStart?)
    ensures s.ReqFragmentStart? ==>
              (IsPathByte(b) || b == 63 ==> UrlNext(s, b).ReqFragment?) && (b == 35 ==> UrlNext(s, b).ReqFragmentStart?)
    ensures s.ReqFragment? && (IsPathByte(b) || b == 63 || b == 35) ==> UrlNext(s, b).ReqFragment?
  {
    hide ServerNext, IsUrlChar, IsAlpha;
    AlphaIs(b);
    UrlCharIs(b);
  }

  lemma ServerNextIs(s: State, b: byte)
    requires AtServer(s)
    ensures IsUserinfoByte(b) || b == 91 || b == 93 ==> UrlNext(s, b).ReqServer?
    ensures b == 64 && !s.ReqServerWithAt? ==> UrlNext(s, b).ReqServerWithAt?
    ensures b == 47 ==> UrlNext(s, b).ReqPath?
    ensures b == 63 ==> UrlNext(s, b).ReqQueryStringStart?
  {
    ServerBytes(b);
    PrintableUserinfo(b);
    hide ServerNext, IsUserinfoByte;
  }

  lemma PrintableUserinfo(b: byte)
    ensures IsUserinfoByte(b) ==> b > 32
  {
    if IsOneOf(b, "-_.!~*'()%;:&=+$,") {
      UserinfoCharIs(b);
    }
  }

  lemma HostNextIs(s: HostState, b: byte)
    ensures s.UserinfoStart? || s.UserinfoPart? ==>
              (IsUserinfoByte(b) ==> HostNext(s, b).UserinfoPart?) && (b == 64 ==> HostNext(s, b).HostStart?)
    ensures s.HostStart? ==> (b == 91 ==> HostNext(s, b).V6Start?) && (IsHostByte(b) ==> HostNext(s, b).HostPart?)
    ensures s.HostPart? ==> (IsHostByte(b) ==> HostNext(s, b).HostPart?) && (b == 58 ==> HostNext(s, b).PortStart?)
    ensures s.V6Start? || s.V6Part? ==> (IsAddressByte(b) ==> HostNext(s, b).V6Part?)
    ensures s.V6Part? && b == 93 ==> HostNext(s, b).V6End?
    ensures s.V6End? && b == 58 ==> HostNext(s, b).PortStart?
    ensures (s.PortStart? || s.PortPart?) && IsDigit(b) ==> HostNext(s, b).PortPart?
  {
    AlphaIs(b);
    HostBytes(b);
    UserinfoCharIs(b);
    ServerBytes(b);
    hide IsOneOf, ServerNext;
  }

  /** From state s on, bytes that keep it. */
  lemma {:induction false} Walk(buf: seq<byte>, connect: bool, a: nat, b: nat, s: State)
    requires a <= b <= |buf| && Before(buf, connect, a) == s
    requires forall i | a <= i < b :: UrlNext(s, buf[i]) == s
    ensures forall i: nat | a <= i < b :: After(buf, connect, i) == s
    ensures Before(buf, connect, b) == s
    decreases b
  {
    hide UrlNext;
    if a < b {
      Walk(buf, connect, a, b - 1, s);
      NextState(buf, connect, b - 1);
    }
    hide After;
  }

  lemma OneByte(buf: seq<byte>, connect: bool, i: nat)
    requires i < |buf|
    ensures After(buf, connect, i) == UrlNext(Before(buf, connect, i), buf[i]) && Before(buf, connect, i + 1) == After(buf, connect, i)
  {
    NextState(buf, connect, i);
    hide After, UrlNext;
  }

  /** A run of bytes that lead from s to t and then keep t. */
  lemma WalkInto(buf: seq<byte>, connect: bool, a: nat, b: nat, s: State, t: State)
    requires a <= b <= |buf| && Before(buf, connect, a) == s
    requires a < b ==> UrlNext(s, buf[a]) == t
    requires forall i | a < i < b :: UrlNext(t, buf[i]) == t
    ensures forall i: nat | a <= i < b :: After(buf, connect, i) == t
    ensures Before(buf, connect, b) == if a < b then t else s
  {
    hide UrlNext, After;
    if a < b {
      OneByte(buf, connect, a);
      Walk(buf, connect, a + 1, b, t);
    }
  }

  // ---------- the text by position ----------

  /** The bytes of buf from off on are those of x. */
  predicate Holds(buf: seq<byte>, off: nat, x: seq<byte>) {
    off + |x| <= |buf| && forall i | 0 <= i < |x| :: buf[off + i] == x[i]
  }

  lemma HoldsConcat(buf: seq<byte>, off: nat, x: seq<byte>, y: seq<byte>)
    requires Holds(buf, off, x + y)
    ensures Holds(buf, off, x) && Holds(buf, off + |x|, y)
  {
    forall i | 0 <= i < |x| ensures buf[off + i] == x[i] {
      assert (x + y)[i] == x[i];
    }
    forall i | 0 <= i < |y| ensures buf[off + |x| + i] == y[i] {
      assert (x + y)[|x| + i] == y[i];
    }
  }

  function SchemaText(u: Url): seq<byte> { if u.schema != [] then u.schema + [58, 47, 47] else [] }
  function ServerOrNone(u: Url): seq<byte> { if u.server.Some? then ServerText(u.server.value) else [] }
  function QueryText(u: Url): seq<byte> { if u.query.Some? then [63] + u.query.value else [] }
  function FragmentText(u: Url): seq<byte> { if u.fragment.Some? then [35] + (u.hashes + u.fragment.value) else [] }

  /** The five texts of a URL, each at its place. */
  predicate TextsAt(buf: seq<byte>, u: Url) {
    && Holds(buf, 0, SchemaText(u)) && Holds(buf, ServerOff(u), ServerOrNone(u)) && Holds(buf, PathOff(u), u.path)
    && Holds(buf, PathOff(u) + |u.path|, QueryText(u)) && Holds(buf, PathOff(u) + |u.path| + |QueryText(u)|, FragmentText(u))
    && |buf| == PathOff(u) + |u.path| + |QueryText(u)| + |FragmentText(u)|
  }

  lemma JoinHolds(u: Url)
    ensures TextsAt(Join(u), u)
  {
    var a, b, c, d, e := SchemaText(u), ServerOrNone(u), u.path, QueryText(u), FragmentText(u);
    hide ServerText, Holds;
    assert Join(u) == a + b + c + d + e;
    ItHolds(Join(u));
    HoldsConcat(Join(u), 0, a + b + c + d, e);
    HoldsConcat(Join(u), 0, a + b + c, d);
    HoldsConcat(Join(u), 0, a + b, c);
    HoldsConcat(Join(u), 0, a, b);
  }

  lemma ItHolds(buf: seq<byte>)
    ensures Holds(buf, 0, buf)
  {
  }

  // ---------- the first automaton ----------

  lemma OneHeld(buf: seq<byte>, off: nat, b: byte)
    requires Holds(buf, off, [b])
    ensures off < |buf| && buf[off] == b
  {
    assert [b][0] == b && buf[off + 0] == b;
  }

  lemma ThreeHeld(buf: seq<byte>, off: nat, a: byte, b: byte, c: byte)
    requires Holds(buf, off, [a, b, c])
    ensures off + 3 <= |buf| && buf[off] == a && buf[off+1] == b && buf[off+2] == c
  {
    assert buf[off + 0] == [a, b, c][0] && buf[off + 1] == [a, b, c][1] && buf[off + 2] == [a, b, c][2];
  }

  lemma HeldAt(buf: seq<byte>, off: nat, x: seq<byte>, i: nat)
    requires Holds(buf, off, x) && off <= i < off + |x|
    ensures i < |buf| && buf[i] == x[i - off]
  {
    assert buf[off + (i - off)] == x[i - off];
  }

  lemma SchemaStates(buf: seq<byte>, u: Url)
    requires Holds(buf, 0, u.schema + [58, 47, 47]) && u.schema != []
    requires forall i | 0 <= i < |u.schema| :: IsLetterByte(u.schema[i])
    ensures |u.schema| + 3 <= |buf| && Before(buf, false, |u.schema| + 3).ReqServerStart?
    ensures forall i: nat | i < |u.schema| :: After(buf, false, i).ReqSchema?
    ensures forall i: nat | |u.schema| <= i < |u.schema| + 3 :: UrlRank(After(buf, false, i)) == 2
  {
    hide After, UrlNext, Holds, IsLetterByte, Before;
    var n := |u.schema|;
    HoldsConcat(buf, 0, u.schema, [58, 47, 47]);
    ThreeHeld(buf, n, 58, 47, 47);
    forall i | 0 <= i < n ensures UrlNext(ReqSchema, buf[i]) == ReqSchema && UrlNext(ReqSpacesBeforeUrl, buf[i]) == ReqSchema {
      HeldAt(buf, 0, u.schema, i);
      NextIs(ReqSchema, buf[i]);
      NextIs(ReqSpacesBeforeUrl, buf[i]);
    }
    BeforeFirst(buf, false);
    WalkInto(buf, false, 0, n, ReqSpacesBeforeUrl, ReqSchema);
    OneByte(buf, false, n);
    NextIs(ReqSchema, 58);
    OneByte(buf, false, n + 1);
    NextIs(ReqSchemaSlash, 47);
    OneByte(buf, false, n + 2);
    NextIs(ReqSchemaSlashSlash, 47);
  }

  lemma BeforeFirst(buf: seq<byte>, connect: bool)
    ensures Before(buf, connect, 0) == if connect then ReqServerStart else ReqSpacesBeforeUrl
  {
  }

  /** What a server text is made of: at most one '@', and no byte that ends it. */
  predicate ServerLike(x: seq<byte>) {
    && (forall i | 0 <= i < |x| :: IsUserinfoByte(x[i]) || x[i] == 91 || x[i] == 93 || x[i] == 64)
    && forall i, j | 0 <= i < j < |x| :: !(x[i] == 64 && x[j] == 64)
  }

  lemma {:induction false} ServerStates(buf: seq<byte>, connect: bool, a: nat, x: seq<byte>, n: nat)
    requires n <= |x| && Holds(buf, a, x) && ServerLike(x) && Before(buf, connect, a).ReqServerStart?
    ensures a + n <= |buf|
    ensures AtServer(Before(buf, connect, a + n)) && (n > 0 ==> InServer(Before(buf, connect, a + n)))
    ensures Before(buf, connect, a + n).ReqServerWithAt? <==> n > 0 && x[n-1] == 64
    ensures forall i: nat | a <= i < a + n :: InServer(After(buf, connect, i)) &&
                                              (After(buf, connect, i).ReqServerWithAt? <==> buf[i] == 64)
    decreases n
  {
    hide After, UrlNext, IsUserinfoByte, Before, AtServer;
    if n > 0 {
      ServerStates(buf, connect, a, x, n - 1);
      var i := a + n - 1;
      HeldAt(buf, a, x, i);
      OneByte(buf, connect, i);
      ServerStep(Before(buf, connect, i), buf[i]);
      InIsAt(UrlNext(Before(buf, connect, i), buf[i]));
    } else {
      assert AtServer(Before(buf, connect, a)) by { StartIsAt(Before(buf, connect, a)); }
    }
  }

  lemma InIsAt(s: State)
    ensures InServer(s) ==> AtServer(s)
  {
  }

  lemma StartIsAt(s: State)
    ensures s.ReqServerStart? ==> AtServer(s)
  {
  }

  lemma ServerStep(s: State, b: byte)
    requires AtServer(s) && (IsUserinfoByte(b) || b == 91 || b == 93 || b == 64) && !(s.ReqServerWithAt? && b == 64)
    ensures InServer(UrlNext(s, b)) && (UrlNext(s, b).ReqServerWithAt? <==> b == 64)
  {
    ServerNextIs(s, b);
    ServerBytes(b);
    hide UrlNext, ServerNext;
  }

  lemma PathStates(buf: seq<byte>, connect: bool, u: Url)
    requires Holds(buf, PathOff(u), u.path) && GoodPath(u)
    requires var s := Before(buf, connect, PathOff(u)); if u.server.Some? then AtServer(s) else s.ReqSpacesBeforeUrl?
    ensures PathOff(u) + |u.path| <= |buf|
    ensures forall i: nat | PathOff(u) <= i < PathOff(u) + |u.path| :: After(buf, connect, i).ReqPath?
    ensures u.path != [] ==> Before(buf, connect, PathOff(u) + |u.path|).ReqPath?
  {
    hide After, UrlNext, PathOff, Before, IsPathByte, AtServer;
    var a := PathOff(u);
    if u.path != [] {
      HeldAt(buf, a, u.path, a);
      var s := Before(buf, connect, a);
      NextIs(s, buf[a]);
      if u.server.Some? {
        ServerNextIs(s, buf[a]);
      }
      forall i | a < i < a + |u.path| ensures UrlNext(ReqPath, buf[i]) == ReqPath {
        HeldAt(buf, a, u.path, i);
        NextIs(ReqPath, buf[i]);
      }
      WalkInto(buf, connect, a, a + |u.path|, s, ReqPath);
    }
  }

  lemma QueryStates(buf: seq<byte>, connect: bool, a: nat, q: seq<byte>)
    requires Holds(buf, a, [63] + q) && forall i | 0 <= i < |q| :: IsPathByte(q[i]) || q[i] == 63
    requires a <= |buf| && (AtServer(Before(buf, connect, a)) || Before(buf, connect, a).ReqPath?)
    ensures a + 1 + |q| <= |buf| && UrlRank(After(buf, connect, a)) == 5
    ensures forall i: nat | a < i <= a + |q| :: After(buf, connect, i).ReqQueryString?
    ensures var t := Before(buf, connect, a + 1 + |q|); t.ReqQueryStringStart? || t.ReqQueryString?
  {
    hide After, UrlNext, Before, IsPathByte, AtServer;
    HoldsConcat(buf, a, [63], q);
    OneHeld(buf, a, 63);
    var s := Before(buf, connect, a);
    OneByte(buf, connect, a);
    NextIs(s, 63);
    if AtServer(s) {
      ServerNextIs(s, 63);
    }
    forall i | a < i <= a + |q|
      ensures UrlNext(ReqQueryStringStart, buf[i]) == ReqQueryString && UrlNext(ReqQueryString, buf[i]) == ReqQueryString
    {
      HeldAt(buf, a + 1, q, i);
      NextIs(ReqQueryStringStart, buf[i]);
      NextIs(ReqQueryString, buf[i]);
    }
    WalkInto(buf, connect, a + 1, a + 1 + |q|, ReqQueryStringStart, ReqQueryString);
  }

  lemma HashStates(buf: seq<byte>, connect: bool, a: nat, h: seq<byte>)
    requires Holds(buf, a, [35] + h) && AreHashes(h)
    requires a <= |buf| && var s := Before(buf, connect, a); s.ReqPath? || s.ReqQueryStringStart? || s.ReqQueryString?
    ensures a + 1 + |h| <= |buf| && Before(buf, connect, a + 1 + |h|).ReqFragmentStart?
    ensures forall i: nat | a <= i <= a + |h| :: After(buf, connect, i).ReqFragmentStart?
  {
    hide After, UrlNext, Before;
    HoldsConcat(buf, a, [35], h);
    OneHeld(buf, a, 35);
    OneByte(buf, connect, a);
    NextIs(Before(buf, connect, a), 35);
    forall i | a < i <= a + |h| ensures UrlNext(ReqFragmentStart, buf[i]) == ReqFragmentStart {
      HeldAt(buf, a + 1, h, i);
      NextIs(ReqFragmentStart, buf[i]);
    }
    Walk(buf, connect, a + 1, a + 1 + |h|, ReqFragmentStart);
  }

  lemma FragmentStates(buf: seq<byte>, connect: bool, a: nat, h: seq<byte>, f: seq<byte>)
    requires Holds(buf, a, [35] + (h + f)) && AreHashes(h) && (f != [] ==> f[0] != 35)
    requires forall i | 0 <= i < |f| :: IsPathByte(f[i]) || f[i] == 63 || f[i] == 35
    requires a <= |buf| && var s := Before(buf, connect, a); s.ReqPath? || s.ReqQueryStringStart? || s.ReqQueryString?
    ensures a + 1 + |h| + |f| <= |buf|
    ensures forall i: nat | a <= i <= a + |h| :: UrlRank(After(buf, connect, i)) == 7
    ensures forall i: nat | a + |h| < i <= a + |h| + |f| :: After(buf, connect, i).ReqFragment?
  {
    hide After, UrlNext, Before, IsPathByte, AreHashes;
    assert [35] + (h + f) == [35] + h + f;
    HoldsConcat(buf, a, [35] + h, f);
    HashStates(buf, connect, a, h);
    var b := a + 1 + |h|;
    forall i | b <= i < b + |f|
      ensures i == b ==> UrlNext(ReqFragmentStart, buf[i]) == ReqFragment
      ensures UrlNext(ReqFragment, buf[i]) == ReqFragment
    {
      HeldAt(buf, b, f, i);
      NextIs(ReqFragmentStart, buf[i]);
      NextIs(ReqFragment, buf[i]);
    }
    WalkInto(buf, connect, b, b + |f|, ReqFragmentStart, ReqFragment);
  }

  // ---------- the second automaton ----------

  /** The server part is from a to b. */
  ghost predicate ServerOn(buf: seq<byte>, connect: bool, a: nat, b: nat) {
    && a <= b <= |buf| && (a > 0 ==> !ServerAt(buf, connect, a - 1))
    && forall i: nat | a <= i < b :: ServerAt(buf, connect, i)
  }

  /** The state before byte i of the server part. */
  function HostTo(buf: seq<byte>, connect: bool, at: bool, a: nat, i: nat): HostState
    requires a <= i <= |buf|
  {
    if i == a then if at then UserinfoStart else HostStart else HostAt(buf, connect, at, i - 1)
  }

  lemma OneHostByte(buf: seq<byte>, connect: bool, at: bool, a: nat, b: nat, i: nat)
    requires ServerOn(buf, connect, a, b) && a <= i < b
    ensures HostAt(buf, connect, at, i) == HostNext(HostTo(buf, connect, at, a, i), buf[i])
    ensures HostTo(buf, connect, at, a, i + 1) == HostAt(buf, connect, at, i)
  {
    assert i > a ==> ServerAt(buf, connect, i - 1);
    hide HostNext, ServerAt;
  }

  lemma {:induction false} HostWalk(buf: seq<byte>, connect: bool, at: bool, a: nat, b: nat, p: nat, q: nat, s: HostState)
    requires ServerOn(buf, connect, a, b) && a <= p <= q <= b && HostTo(buf, connect, at, a, p) == s
    requires forall i | p <= i < q :: HostNext(s, buf[i]) == s
    ensures forall i: nat | p <= i < q :: HostAt(buf, connect, at, i) == s
    ensures HostTo(buf, connect, at, a, q) == s
    decreases q
  {
    hide HostNext, HostAt, ServerOn, HostTo;
    assert b <= |buf| by { OnInside(buf, connect, a, b); }
    if p < q {
      HostWalk(buf, connect, at, a, b, p, q - 1, s);
      OneHostByte(buf, connect, at, a, b, q - 1);
    }
  }

  lemma OnInside(buf: seq<byte>, connect: bool, a: nat, b: nat)
    requires ServerOn(buf, connect, a, b)
    ensures a <= b <= |buf|
  {
  }

  lemma HostWalkInto(buf: seq<byte>, connect: bool, at: bool, a: nat, b: nat, p: nat, q: nat, s: HostState, t: HostState)
    requires ServerOn(buf, connect, a, b) && a <= p <= q <= b && HostTo(buf, connect, at, a, p) == s
    requires p < q ==> HostNext(s, buf[p]) == t
    requires forall i | p < i < q :: HostNext(t, buf[i]) == t
    ensures forall i: nat | p <= i < q :: HostAt(buf, connect, at, i) == t
    ensures HostTo(buf, connect, at, a, q) == if p < q then t else s
  {
    hide HostNext, HostAt, ServerOn, HostTo;
    OnInside(buf, connect, a, b);
    if p < q {
      OneHostByte(buf, connect, at, a, b, p);
      HostWalk(buf, connect, at, a, b, p + 1, q, t);
    }
  }

  lemma UserinfoStates(buf: seq<byte>, connect: bool, a: nat, b: nat, x: seq<byte>)
    requires ServerOn(buf, connect, a, b) && Holds(buf, a, x + [64]) && a + |x| + 1 <= b
    requires forall i | 0 <= i < |x| :: IsUserinfoByte(x[i])
    ensures forall i: nat | a <= i < a + |x| :: HostAt(buf, connect, true, i).UserinfoPart?
    ensures a + |x| < |buf| && HostAt(buf, connect, true, a + |x|).HostStart?
    ensures HostTo(buf, connect, true, a, a + |x| + 1).HostStart?
  {
    hide HostNext, HostAt, ServerOn, HostTo, IsUserinfoByte, Holds;
    HoldsConcat(buf, a, x, [64]);
    OneHeld(buf, a + |x|, 64);
    HostToFirst(buf, connect, true, a);
    forall i | a <= i < a + |x|
      ensures HostNext(UserinfoStart, buf[i]) == UserinfoPart && HostNext(UserinfoPart, buf[i]) == UserinfoPart
    {
      HeldAt(buf, a, x, i);
      HostNextIs(UserinfoStart, buf[i]);
      HostNextIs(UserinfoPart, buf[i]);
    }
    HostWalkInto(buf, connect, true, a, b, a, a + |x|, UserinfoStart, UserinfoPart);
    OneHostByte(buf, connect, true, a, b, a + |x|);
    HostNextIs(UserinfoStart, 64);
    HostNextIs(UserinfoPart, 64);
  }

  lemma HostToFirst(buf: seq<byte>, connect: bool, at: bool, a: nat)
    requires a <= |buf|
    ensures HostTo(buf, connect, at, a, a) == if at then UserinfoStart else HostStart
  {
  }

  lemma NameStates(buf: seq<byte>, connect: bool, at: bool, a: nat, b: nat, p: nat, h: seq<byte>)
    requires ServerOn(buf, connect, a, b) && a <= p && p + |h| <= b && Holds(buf, p, h) && h != []
    requires HostTo(buf, connect, at, a, p).HostStart? && forall i | 0 <= i < |h| :: IsHostByte(h[i])
    ensures forall i: nat | p <= i < p + |h| :: HostAt(buf, connect, at, i).HostPart?
    ensures HostTo(buf, connect, at, a, p + |h|).HostPart?
  {
    hide HostNext, HostAt, ServerOn, HostTo, IsHostByte, Holds;
    OnInside(buf, connect, a, b);
    forall i | p <= i < p + |h| ensures HostNext(HostState.HostStart, buf[i]) == HostState.HostPart
      ensures HostNext(HostState.HostPart, buf[i]) == HostState.HostPart
    {
      HeldAt(buf, p, h, i);
      HostNextIs(HostState.HostStart, buf[i]);
      HostNextIs(HostState.HostPart, buf[i]);
    }
    HostWalkInto(buf, connect, at, a, b, p, p + |h|, HostState.HostStart, HostState.HostPart);
  }

  lemma AddressStates(buf: seq<byte>, connect: bool, at: bool, a: nat, b: nat, p: nat, h: seq<byte>)
    requires ServerOn(buf, connect, a, b) && a <= p && p + |h| + 2 <= b && Holds(buf, p, [91] + h + [93]) && h != []
    requires HostTo(buf, connect, at, a, p).HostStart? && forall i | 0 <= i < |h| :: IsAddressByte(h[i])
    ensures b <= |buf|
    ensures HostAt(buf, connect, at, p).V6Start? && HostAt(buf, connect, at, p + 1 + |h|).V6End?
    ensures forall i: nat | p < i <= p + |h| :: HostAt(buf, connect, at, i).V6Part?
    ensures HostTo(buf, connect, at, a, p + |h| + 2).V6End?
  {
    hide HostNext, HostAt, ServerOn, HostTo, IsAddressByte, Holds;
    OnInside(buf, connect, a, b);
    HoldsConcat(buf, p, [91] + h, [93]);
    HoldsConcat(buf, p, [91], h);
    OneHeld(buf, p, 91);
    OneHeld(buf, p + 1 + |h|, 93);
    OneHostByte(buf, connect, at, a, b, p);
    HostNextIs(HostState.HostStart, 91);
    forall i | p < i <= p + |h| ensures HostNext(V6Start, buf[i]) == V6Part && HostNext(V6Part, buf[i]) == V6Part {
      HeldAt(buf, p + 1, h, i);
      HostNextIs(V6Start, buf[i]);
      HostNextIs(V6Part, buf[i]);
    }
    HostWalkInto(buf, connect, at, a, b, p + 1, p + 1 + |h|, V6Start, V6Part);
    OneHostByte(buf, connect, at, a, b, p + 1 + |h|);
    HostNextIs(V6Part, 93);
  }

  lemma PortStates(buf: seq<byte>, connect: bool, at: bool, a: nat, b: nat, p: nat, d: seq<byte>)
    requires ServerOn(buf, connect, a, b) && a <= p && p + 1 + |d| <= b && Holds(buf, p, [58] + d) && d != []
    requires var s := HostTo(buf, connect, at, a, p); s.HostPart? || s.V6End?
    requires forall i | 0 <= i < |d| :: IsDigit(d[i])
    ensures b <= |buf| && HostAt(buf, connect, at, p).PortStart?
    ensures forall i: nat | p < i <= p + |d| :: HostAt(buf, connect, at, i).PortPart?
    ensures HostTo(buf, connect, at, a, p + 1 + |d|).PortPart?
  {
    hide HostNext, HostAt, ServerOn, HostTo, IsDigit, Holds;
    OnInside(buf, connect, a, b);
    HoldsConcat(buf, p, [58], d);
    OneHeld(buf, p, 58);
    OneHostByte(buf, connect, at, a, b, p);
    HostNextIs(HostTo(buf, connect, at, a, p), 58);
    forall i | p < i <= p + |d|
      ensures HostNext(HostState.PortStart, buf[i]) == HostState.PortPart && HostNext(HostState.PortPart, buf[i]) == HostState.PortPart
    {
      HeldAt(buf, p + 1, d, i);
      HostNextIs(HostState.PortStart, buf[i]);
      HostNextIs(HostState.PortPart, buf[i]);
    }
    HostWalkInto(buf, connect, at, a, b, p + 1, p + 1 + |d|, HostState.PortStart, HostState.PortPart);
  }

  // ---------- the regions of a URL ----------

  /** The bytes from a to b have rank r, and are alive. */
  ghost predicate Region(buf: seq<byte>, connect: bool, a: nat, b: nat, r: nat) {
    a <= b <= |buf| && forall i: nat | a <= i < b :: !After(buf, connect, i).Dead? && R(buf, connect, i) == r
  }

  ghost predicate Regions(buf: seq<byte>, connect: bool, u: Url) {
    var s, p := ServerOff(u), PathOff(u);
    var e := p + |u.path|;
    && Region(buf, connect, 0, |u.schema|, 1) && Region(buf, connect, |u.schema|, s, 2) && Region(buf, connect, s, p, 3)
    && Region(buf, connect, p, e, 4)
    && Region(buf, connect, e, QueryOff(u), 5) && Region(buf, connect, QueryOff(u), e + |QueryText(u)|, 6)
    && Region(buf, connect, e + |QueryText(u)|, FragmentOff(u), 7) && Region(buf, connect, FragmentOff(u), |buf|, 8)
  }

  lemma ServerTextIsLike(s: Server)
    requires GoodServer(s)
    ensures ServerLike(ServerText(s)) && ServerText(s) != []
    ensures forall i | 0 <= i < |ServerText(s)| ::
              ServerText(s)[i] == 64 <==> s.userinfo.Some? && i == |s.userinfo.value|
  {
    var x := ServerText(s);
    var a := if s.userinfo.Some? then |s.userinfo.value| + 1 else 0;
    var b := a + |s.host| + if s.brackets then 2 else 0;
    forall i | 0 <= i < |x|
      ensures if s.userinfo.Some? && i == |s.userinfo.value| then x[i] == 64
              else x[i] != 64 && (IsUserinfoByte(x[i]) || x[i] == 91 || x[i] == 93)
    {
      ServerByte(s, i);
    }
    hide ServerText, IsUserinfoByte, GoodServer;
  }

  lemma ServerByte(s: Server, i: nat)
    requires GoodServer(s) && i < |ServerText(s)|
    ensures var b := ServerText(s)[i];
            if s.userinfo.Some? && i == |s.userinfo.value| then b == 64
            else b != 64 && (IsUserinfoByte(b) || b == 91 || b == 93)
  {
    var x := if s.userinfo.Some? then s.userinfo.value + [64] else [];
    var y := if s.brackets then [91] + s.host + [93] else s.host;
    var z := if s.port.Some? then [58] + s.port.value else [];
    assert ServerText(s) == x + y + z;
    var b := ServerText(s)[i];
    hide ServerText, IsUserinfoByte, IsHostByte, IsAddressByte, IsDigit;
    if i < |x| {
      assert b == x[i];
      ServerBytesAre(b);
    } else if i < |x| + |y| {
      assert b == y[i - |x|];
      ServerBytesAre(b);
    } else {
      assert b == z[i - |x| - |y|];
      ServerBytesAre(b);
    }
  }

  lemma ServerBytesAre(b: byte)
    ensures IsHostByte(b) || IsAddressByte(b) || IsDigit(b) || b == 58 ==> IsUserinfoByte(b)
    ensures IsUserinfoByte(b) ==> b != 64
  {
    ServerBytes(b);
    var cs := "-_.!~*'()%;:&=+$,";
    assert cs[0] as int == 45 && cs[1] as int == 95 && cs[2] as int == 46 && cs[11] as int == 58;
    if b == 45 {
      OneOf(b, cs, 0);
    } else if b == 95 {
      OneOf(b, cs, 1);
    } else if b == 46 {
      OneOf(b, cs, 2);
    } else if b == 58 {
      OneOf(b, cs, 11);
    }
  }

  /** Where the first automaton is before the path. */
  ghost predicate BeforePath(buf: seq<byte>, connect: bool, u: Url) {
    PathOff(u) <= |buf| &&
    var s := Before(buf, connect, PathOff(u));
    if u.server.Some? then AtServer(s) else s.ReqSpacesBeforeUrl?
  }

  lemma FrontRegions(buf: seq<byte>, connect: bool, u: Url)
    requires TextsAt(buf, u) && GoodUrl(u, connect)
    ensures PathOff(u) <= |buf| && BeforePath(buf, connect, u)
    ensures Region(buf, connect, 0, |u.schema|, 1) && Region(buf, connect, |u.schema|, ServerOff(u), 2)
    ensures Region(buf, connect, ServerOff(u), PathOff(u), 3)
    ensures forall i: nat | i < PathOff(u) :: After(buf, connect, i).ReqServerWithAt? <==> ServerOff(u) <= i && buf[i] == 64
  {
    hide After, Before, UrlNext, ServerText, GoodServer, Holds, UrlRank;
    BeforeFirst(buf, connect);
    if u.schema != [] {
      SchemaStates(buf, u);
    }
    if u.server.Some? {
      ServerTextIsLike(u.server.value);
      var x := ServerText(u.server.value);
      ServerStates(buf, connect, ServerOff(u), x, |x|);
    }
    RanksOf(buf, connect);
    hide TextsAt, GoodUrl;
  }

  lemma RanksOf(buf: seq<byte>, connect: bool)
    ensures forall i: nat | i < |buf| ::
              && (After(buf, connect, i).ReqSchema? ==> R(buf, connect, i) == 1)
              && (UrlRank(After(buf, connect, i)) == 2 ==> R(buf, connect, i) == 2 && !After(buf, connect, i).Dead?)
              && (InServer(After(buf, connect, i)) <==> R(buf, connect, i) == 3)
              && (After(buf, connect, i).ReqPath? ==> R(buf, connect, i) == 4)
              && (UrlRank(After(buf, connect, i)) == 5 ==> R(buf, connect, i) == 5 && !After(buf, connect, i).Dead?)
              && (After(buf, connect, i).ReqQueryString? ==> R(buf, connect, i) == 6)
              && (UrlRank(After(buf, connect, i)) == 7 ==> R(buf, connect, i) == 7 && !After(buf, connect, i).Dead?)
              && (After(buf, connect, i).ReqFragment? ==> R(buf, connect, i) == 8)
  {
    hide After;
  }

  lemma BackRegions(buf: seq<byte>, connect: bool, u: Url)
    requires TextsAt(buf, u) && GoodUrl(u, connect) && PathOff(u) <= |buf| && BeforePath(buf, connect, u)
    ensures var e := PathOff(u) + |u.path|;
            && Region(buf, connect, PathOff(u), e, 4)
            && Region(buf, connect, e, QueryOff(u), 5) && Region(buf, connect, QueryOff(u), e + |QueryText(u)|, 6)
            && Region(buf, connect, e + |QueryText(u)|, FragmentOff(u), 7) && Region(buf, connect, FragmentOff(u), |buf|, 8)
    ensures forall i: nat | PathOff(u) <= i < |buf| :: !After(buf, connect, i).ReqServerWithAt?
  {
    hide After, Before, UrlNext, ServerText, GoodServer, Holds, UrlRank, PathOff, SchemaText, ServerOrNone, AtServer;
    var e := PathOff(u) + |u.path|;
    PathStates(buf, connect, u);
    if u.query.Some? {
      QueryStates(buf, connect, e, u.query.value);
    }
    if u.fragment.Some? {
      FragmentStates(buf, connect, e + |QueryText(u)|, u.hashes, u.fragment.value);
    }
    RanksOf(buf, connect);
    hide TextsAt, GoodUrl;
  }

  lemma UrlRegions(buf: seq<byte>, connect: bool, u: Url)
    requires TextsAt(buf, u) && GoodUrl(u, connect)
    ensures Regions(buf, connect, u)
    ensures HasAt(buf, connect, |buf|) <==> u.server.Some? && u.server.value.userinfo.Some?
  {
    hide After, Before, ServerText, GoodServer, Region, BeforePath, TextsAt, GoodUrl, HasAt;
    FrontRegions(buf, connect, u);
    BackRegions(buf, connect, u);
    HasAtIs(buf, connect, u);
  }

  lemma HasAtIs(buf: seq<byte>, connect: bool, u: Url)
    requires TextsAt(buf, u) && GoodUrl(u, connect) && PathOff(u) <= |buf|
    requires forall i: nat | i < PathOff(u) :: After(buf, connect, i).ReqServerWithAt? <==> ServerOff(u) <= i && buf[i] == 64
    requires forall i: nat | PathOff(u) <= i < |buf| :: !After(buf, connect, i).ReqServerWithAt?
    ensures HasAt(buf, connect, |buf|) <==> u.server.Some? && u.server.value.userinfo.Some?
  {
    hide After, Before, ServerText, GoodServer, Holds, GoodPath, GoodRest;
    if u.server.Some? {
      ServerAtSigns(buf, u);
      if u.server.value.userinfo.Some? {
        assert After(buf, connect, ServerOff(u) + |u.server.value.userinfo.value|).ReqServerWithAt?;
      }
    }
    hide TextsAt, GoodUrl;
  }

  /** The '@' of the server is the one behind the user info. */
  lemma ServerAtSigns(buf: seq<byte>, u: Url)
    requires u.server.Some? && GoodServer(u.server.value) && Holds(buf, ServerOff(u), ServerText(u.server.value))
    ensures PathOff(u) <= |buf|
    ensures u.server.value.userinfo.Some? ==> ServerOff(u) + |u.server.value.userinfo.value| < PathOff(u)
    ensures forall i: nat | ServerOff(u) <= i < PathOff(u) ::
              buf[i] == 64 <==> u.server.value.userinfo.Some? && i == ServerOff(u) + |u.server.value.userinfo.value|
  {
    hide ServerText, GoodServer, Holds;
    var s, x, a := u.server.value, ServerText(u.server.value), ServerOff(u);
    ServerTextIsLike(s);
    UserinfoFits(s);
    HeldFits(buf, a, x);
    forall i: nat | a <= i < PathOff(u)
      ensures buf[i] == 64 <==> s.userinfo.Some? && i == a + |s.userinfo.value|
    {
      HeldAt(buf, a, x, i);
    }
  }

  lemma HeldFits(buf: seq<byte>, off: nat, x: seq<byte>)
    requires Holds(buf, off, x)
    ensures off + |x| <= |buf|
  {
  }

  lemma UserinfoFits(s: Server)
    ensures s.userinfo.Some? ==> |s.userinfo.value| < |ServerText(s)|
  {
  }

  // ---------- the parts of the server ----------

  predicate InSpan(s: Span, i: nat) { s.off <= i < s.off + s.len }

  /** What the second automaton says of byte i of the server. */
  ghost predicate HostSays(buf: seq<byte>, connect: bool, u: Url, i: nat)
    requires i < |buf| && u.server.Some?
  {
    var h := HostAt(buf, connect, u.server.value.userinfo.Some?, i);
    && !h.HostDead?
    && (h.UserinfoPart? <==> InSpan(SpanFor(u, Userinfo), i))
    && (h.HostPart? || h.V6Part? <==> InSpan(SpanFor(u, Host), i))
    && (h.PortPart? <==> InSpan(SpanFor(u, Port), i))
  }

  ghost predicate HostSaysAll(buf: seq<byte>, connect: bool, u: Url, p: nat, q: nat)
    requires u.server.Some?
  {
    p <= q <= |buf| && forall i: nat | p <= i < q :: HostSays(buf, connect, u, i)
  }

  lemma ServerIsOn(buf: seq<byte>, connect: bool, u: Url)
    requires Regions(buf, connect, u)
    ensures ServerOn(buf, connect, ServerOff(u), PathOff(u))
  {
    hide After, ServerText;
    RanksOf(buf, connect);
    if ServerOff(u) > 0 {
      assert R(buf, connect, ServerOff(u) - 1) == 2;
    }
    hide R;
  }

  /** The three texts of a server, at their places. */
  lemma ServerTexts(buf: seq<byte>, u: Url)
    requires u.server.Some? && Holds(buf, ServerOff(u), ServerText(u.server.value))
    ensures var s, a := u.server.value, ServerOff(u);
            var n := if s.userinfo.Some? then |s.userinfo.value| + 1 else 0;
            var m := n + |s.host| + if s.brackets then 2 else 0;
            && (s.userinfo.Some? ==> Holds(buf, a, s.userinfo.value + [64]))
            && Holds(buf, a + n, if s.brackets then [91] + s.host + [93] else s.host)
            && (s.port.Some? ==> Holds(buf, a + m, [58] + s.port.value))
            && |ServerText(s)| == m + if s.port.Some? then 1 + |s.port.value| else 0
  {
    var s, a := u.server.value, ServerOff(u);
    var x := if s.userinfo.Some? then s.userinfo.value + [64] else [];
    var y := if s.brackets then [91] + s.host + [93] else s.host;
    var z := if s.port.Some? then [58] + s.port.value else [];
    assert ServerText(s) == x + y + z;
    hide ServerText, Holds;
    HoldsConcat(buf, a, x + y, z);
    HoldsConcat(buf, a, x, y);
  }

  lemma UserinfoSays(buf: seq<byte>, connect: bool, u: Url, b: nat)
    requires u.server.Some? && GoodServer(u.server.value) && ServerOn(buf, connect, ServerOff(u), b)
    requires u.server.value.userinfo.Some? ==>
               Holds(buf, ServerOff(u), u.server.value.userinfo.value + [64]) && ServerOff(u) + |u.server.value.userinfo.value| < b
    ensures var s := u.server.value;
            var p := ServerOff(u) + if s.userinfo.Some? then |s.userinfo.value| + 1 else 0;
            && HostSaysAll(buf, connect, u, ServerOff(u), p)
            && HostTo(buf, connect, s.userinfo.Some?, ServerOff(u), p).HostStart?
  {
    hide HostAt, HostTo, ServerOn, Holds;
    OnInside(buf, connect, ServerOff(u), b);
    var s := u.server.value;
    if s.userinfo.Some? {
      UserinfoStates(buf, connect, ServerOff(u), b, s.userinfo.value);
    } else {
      HostToFirst(buf, connect, false, ServerOff(u));
    }
  }

  lemma NameSays(buf: seq<byte>, connect: bool, u: Url, p: nat, b: nat)
    requires u.server.Some? && GoodServer(u.server.value) && ServerOn(buf, connect, ServerOff(u), b)
    requires var s := u.server.value;
             && p == ServerOff(u) + (if s.userinfo.Some? then |s.userinfo.value| + 1 else 0)
             && p + |s.host| + (if s.brackets then 2 else 0) <= b
             && Holds(buf, p, if s.brackets then [91] + s.host + [93] else s.host)
             && HostTo(buf, connect, s.userinfo.Some?, ServerOff(u), p).HostStart?
    ensures var s := u.server.value;
            var q := p + |s.host| + if s.brackets then 2 else 0;
            && HostSaysAll(buf, connect, u, p, q)
            && (HostTo(buf, connect, s.userinfo.Some?, ServerOff(u), q).HostPart? ||
                HostTo(buf, connect, s.userinfo.Some?, ServerOff(u), q).V6End?)
  {
    hide HostAt, HostTo, ServerOn, Holds, IsHostByte, IsAddressByte;
    OnInside(buf, connect, ServerOff(u), b);
    var s := u.server.value;
    if s.brackets {
      AddressStates(buf, connect, s.userinfo.Some?, ServerOff(u), b, p, s.host);
    } else {
      NameStates(buf, connect, s.userinfo.Some?, ServerOff(u), b, p, s.host);
    }
  }

  lemma PortSays(buf: seq<byte>, connect: bool, u: Url, p: nat, b: nat)
    requires u.server.Some? && GoodServer(u.server.value) && u.server.value.port.Some? && p == PortOff(u) - 1
    requires ServerOn(buf, connect, ServerOff(u), b) && p + 1 + |u.server.value.port.value| <= b
    requires Holds(buf, p, [58] + u.server.value.port.value)
    requires var h := HostTo(buf, connect, u.server.value.userinfo.Some?, ServerOff(u), p); h.HostPart? || h.V6End?
    ensures HostSaysAll(buf, connect, u, p, p + 1 + |u.server.value.port.value|)
    ensures HostTo(buf, connect, u.server.value.userinfo.Some?, ServerOff(u), p + 1 + |u.server.value.port.value|).PortPart?
  {
    hide HostAt, HostTo, ServerOn, Holds, IsDigit;
    OnInside(buf, connect, ServerOff(u), b);
    PortStates(buf, connect, u.server.value.userinfo.Some?, ServerOff(u), b, p, u.server.value.port.value);
  }

  lemma ServerSays(buf: seq<byte>, connect: bool, u: Url)
    requires u.server.Some? && GoodServer(u.server.value) && Holds(buf, ServerOff(u), ServerText(u.server.value))
    requires ServerOn(buf, connect, ServerOff(u), PathOff(u))
    ensures HostSaysAll(buf, connect, u, ServerOff(u), PathOff(u))
    ensures PathOff(u) > ServerOff(u)
    ensures GoodEnd(HostAt(buf, connect, u.server.value.userinfo.Some?, PathOff(u) - 1))
  {
    hide HostAt, HostTo, ServerOn, Holds, ServerText, HostSays, GoodServer, GoodEnd;
    var s, a, b := u.server.value, ServerOff(u), PathOff(u);
    OnInside(buf, connect, a, b);
    ServerTexts(buf, u);
    HostNotEmpty(s);
    var p := a + if s.userinfo.Some? then |s.userinfo.value| + 1 else 0;
    var q := p + |s.host| + if s.brackets then 2 else 0;
    UserinfoSays(buf, connect, u, b);
    NameSays(buf, connect, u, p, b);
    if s.port.Some? {
      PortSays(buf, connect, u, q, b);
    }
    LastState(buf, connect, s.userinfo.Some?, a, b);
    GoodStates();
  }

  lemma HostNotEmpty(s: Server)
    requires GoodServer(s)
    ensures s.host != []
  {
  }

  lemma GoodStates()
    ensures forall h: HostState :: h.HostPart? || h.V6End? || h.PortPart? ==> GoodEnd(h)
  {
  }

  lemma LastState(buf: seq<byte>, connect: bool, at: bool, a: nat, b: nat)
    requires a < b <= |buf|
    ensures HostTo(buf, connect, at, a, b) == HostAt(buf, connect, at, b - 1)
  {
  }

  // ---------- the owners ----------

  lemma RegionsAreAlive(buf: seq<byte>, connect: bool, u: Url)
    requires Regions(buf, connect, u)
    ensures Alive(buf, connect, |buf|)
  {
    hide After, R, ServerText;
  }

  /** A byte has the rank of the region that it is in. */
  lemma RankInRegion(buf: seq<byte>, connect: bool, u: Url, i: nat)
    requires Regions(buf, connect, u) && i < |buf|
    ensures R(buf, connect, i) == 1 <==> i < |u.schema|
    ensures R(buf, connect, i) == 3 <==> ServerOff(u) <= i < PathOff(u)
    ensures R(buf, connect, i) == 4 <==> PathOff(u) <= i < PathOff(u) + |u.path|
    ensures R(buf, connect, i) == 6 <==> InSpan(SpanFor(u, Query), i)
    ensures R(buf, connect, i) == 8 <==> FragmentOff(u) <= i
  {
    hide After, R, ServerText;
  }

  lemma OwnersAre(buf: seq<byte>, connect: bool, u: Url, f: UrlField, i: nat)
    requires TextsAt(buf, u) && GoodUrl(u, connect) && Regions(buf, connect, u) && i < |buf|
    ensures var at := u.server.Some? && u.server.value.userinfo.Some?;
            Owner(buf, connect, at, i) == Some(f) <==> InSpan(SpanFor(u, f), i)
  {
    var at := u.server.Some? && u.server.value.userinfo.Some?;
    RegionsAreAlive(buf, connect, u);
    RankInRegion(buf, connect, u, i);
    ServerIsOn(buf, connect, u);
    EndIs(buf, u);
    OwnerIs(buf, connect, at, i);
    hide Regions, Alive, R, After, HostAt, Owner, Holds, ServerText, GoodServer, GoodPath, GoodRest;
    if u.server.Some? {
      ServerSays(buf, connect, u);
      if R(buf, connect, i) == 3 {
        assert HostSays(buf, connect, u, i);
      } else {
        NotInServer(u, i);
      }
    }
    IsField(f);
  }

  lemma EndIs(buf: seq<byte>, u: Url)
    requires TextsAt(buf, u)
    ensures |buf| == FragmentOff(u) + if u.fragment.Some? then |u.fragment.value| else 0
  {
    hide Holds, ServerText;
  }

  lemma NotInServer(u: Url, i: nat)
    requires u.server.Some? && !(ServerOff(u) <= i < PathOff(u))
    ensures !InSpan(SpanFor(u, Userinfo), i) && !InSpan(SpanFor(u, Host), i) && !InSpan(SpanFor(u, Port), i)
  {
  }

  lemma {:induction false} LabelsAre(ls: Labels, f: UrlField, s: Span)
    requires forall i: nat | i < |ls| :: ls[i] == Some(f) <==> InSpan(s, i)
    requires s.len == 0 || s.off + s.len <= |ls|
    ensures if s.len == 0 then Count(ls, f) == 0 else First(ls, f) == s.off && Count(ls, f) == s.len
  {
    hide Count, First;
    if s.len == 0 {
      CountZero(ls, f);
      FirstIs(ls, f);
    } else {
      TogetherIsSpan(ls, f);
      CountZero(ls, f);
      FirstIs(ls, f);
      var a, n := First(ls, f), Count(ls, f);
      assert ls[s.off] == Some(f) && ls[s.off + s.len - 1] == Some(f);
      assert a == s.off && ls[a + n - 1] == Some(f);
    }
  }

  lemma FirstIs(ls: Labels, f: UrlField)
    ensures First(ls, f) <= |ls| && (forall i | 0 <= i < First(ls, f) :: ls[i] != Some(f))
    ensures First(ls, f) < |ls| ==> ls[First(ls, f)] == Some(f)
  {
  }

  lemma PartsAreSpelled(buf: seq<byte>, connect: bool, u: Url)
    requires TextsAt(buf, u) && GoodUrl(u, connect) && Regions(buf, connect, u)
    ensures var at := u.server.Some? && u.server.value.userinfo.Some?;
            Spells(Owners(buf, connect, at, |buf|), ALL_FIELDS, SpansOf(u))
  {
    var at := u.server.Some? && u.server.value.userinfo.Some?;
    var ls := Owners(buf, connect, at, |buf|);
    hide Owner, Owners, TextsAt, GoodUrl, Regions, SpanFor, First, Count;
    forall f | f in ALL_FIELDS ensures Spelled(ls, f, SpansOf(u)) {
      forall i: nat | i < |ls| ensures ls[i] == Some(f) <==> InSpan(SpanFor(u, f), i) {
        OwnersAre(buf, connect, u, f, i);
      }
      SpanFits(buf, u, f);
      LabelsAre(ls, f, SpanFor(u, f));
    }
  }

  lemma SpanFits(buf: seq<byte>, u: Url, f: UrlField)
    requires TextsAt(buf, u)
    ensures SpanFor(u, f).len == 0 || SpanFor(u, f).off + SpanFor(u, f).len <= |buf|
  {
    EndIs(buf, u);
    hide Holds;
    IsField(f);
  }

  // ---------- the round trip ----------

  lemma {:induction false} DigitsMoved(buf: seq<byte>, d: seq<byte>, off: nat, n: nat)
    requires n <= |d| && Holds(buf, off, d)
    ensures off + n <= |buf| && Digits(buf, off, off + n) == Digits(d, 0, n)
    decreases n
  {
    if n > 0 {
      DigitsMoved(buf, d, off, n - 1);
    }
  }

  lemma PortHeld(buf: seq<byte>, u: Url)
    requires u.server.Some? && u.server.value.port.Some? && Holds(buf, ServerOff(u), ServerText(u.server.value))
    ensures Holds(buf, PortOff(u), u.server.value.port.value)
  {
    hide Holds, ServerText;
    ServerTexts(buf, u);
    HoldsConcat(buf, PortOff(u) - 1, [58], u.server.value.port.value);
  }

  lemma PortIsSmall(buf: seq<byte>, u: Url)
    requires TextsAt(buf, u) && (u.server.Some? ==> GoodServer(u.server.value))
    ensures PortOf(SpansOf(u), buf) ==
              if u.server.Some? && u.server.value.port.Some?
              then Digits(u.server.value.port.value, 0, |u.server.value.port.value|) else 0
  {
    hide Digits, ServerText, Holds;
    if u.server.Some? && u.server.value.port.Some? {
      var d := u.server.value.port.value;
      PortHeld(buf, u);
      DigitsMoved(buf, d, PortOff(u), |d|);
      assert SpanFor(u, Port) == Span(PortOff(u), |d|);
    }
    hide GoodServer;
  }

  lemma PartsFitTogether(buf: seq<byte>, connect: bool, u: Url)
    requires TextsAt(buf, u) && GoodUrl(u, connect) && Regions(buf, connect, u)
    requires HasAt(buf, connect, |buf|) <==> u.server.Some? && u.server.value.userinfo.Some?
    ensures PartsFit(buf, connect)
  {
    var at := HasAt(buf, connect, |buf|);
    RegionsAreAlive(buf, connect, u);
    ServerIsOn(buf, connect, u);
    RanksOf(buf, connect);
    forall i: nat | i < |buf|
      ensures After(buf, connect, i).ReqSchema? ==> i < |u.schema|
      ensures ServerAt(buf, connect, i) <==> ServerOff(u) <= i < PathOff(u)
    {
      RankInRegion(buf, connect, u, i);
    }
    hide After, HostAt, R, Regions, ServerText, Holds, HasAt;
    if u.server.Some? {
      ServerSays(buf, connect, u);
      forall i: nat | i < |buf| && ServerAt(buf, connect, i) ensures !HostAt(buf, connect, at, i).HostDead? {
        assert HostSays(buf, connect, u, i);
      }
      assert EndsAt(buf, connect, at, PathOff(u) - 1);
    }
    hide Alive, GoodServer;
  }

  lemma ConnectFields(u: Url)
    requires GoodUrl(u, true)
    ensures SpansOf(u).Keys == {Host, Port}
  {
    forall f ensures f in SpansOf(u) <==> f == Host || f == Port {
      IsField(f);
    }
  }

  /** Well-formed parts, joined, are accepted, and the spans are those of the parts that are not
      empty. */
  lemma JoinedIsAccepted(u: Url, connect: bool)
    requires GoodUrl(u, connect)
    ensures Accepts(Join(u), connect, SpansOf(u))
    ensures PortOf(SpansOf(u), Join(u)) ==
              if u.server.Some? && u.server.value.port.Some?
              then Digits(u.server.value.port.value, 0, |u.server.value.port.value|) else 0
  {
    var buf := Join(u);
    JoinHolds(u);
    UrlRegions(buf, connect, u);
    PartsAreSpelled(buf, connect, u);
    PartsFitTogether(buf, connect, u);
    PortIsSmall(buf, u);
    if connect {
      ConnectFields(u);
    }
    hide Join, TextsAt, Regions, Spells, PartsFit, HasAt, SpansOf, PortOf, Owners, Digits;
    assert u.server.Some? ==> GoodServer(u.server.value);
  }

  /** The round trip: parsing a URL joined from well-formed parts gives back just these parts. */
  method JoinAndParse(u: Url, connect: bool) returns (r: Option<Fields>)
    requires GoodUrl(u, connect)
    ensures r.Some? && r.value.spans == SpansOf(u)
    ensures r.value.port == if u.server.Some? && u.server.value.port.Some?
                            then Digits(u.server.value.port.value, 0, |u.server.value.port.value|) else 0
  {
    hide Accepts, SpansOf, PortOf, Digits, GoodUrl;
    JoinedIsAccepted(u, connect);
    r := ParseUrl(Join(u), connect);
    if r.Some? {
      OnlyOneParse(Join(u), connect, r.value.spans, SpansOf(u));
    }
  }

  lemma OnlyOneParse(buf: seq<byte>, connect: bool, spans: map<UrlField, Span>, more: map<UrlField, Span>)
    requires Accepts(buf, connect, spans) && Accepts(buf, connect, more)
    ensures spans == more
  {
    SpellsOnce(Owners(buf, connect, HasAt(buf, connect, |buf|), |buf|), spans, more);
    hide Spells, PartsFit, Owners, HasAt;
  }
}
