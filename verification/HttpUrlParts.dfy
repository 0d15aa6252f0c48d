/** The parts of a URL by their bytes: what they are made of, and which delimiters stand between
    them. */
module HttpUrlParts {
  import opened Common
  import opened HttpTypes
  import opened HttpCases
  import opened HttpAscii
  import opened HttpUrl

  // ---------- characters ----------

  predicate IsLetterByte(b: byte) { IsCapital(b) || IsSmall(b) }

  predicate IsHexByte(b: byte) { IsDigit(b) || 97 <= b <= 102 || 65 <= b <= 70 }

  /** Letters, digits, and . - _ */
  predicate IsHostByte(b: byte) { IsLetterByte(b) || IsDigit(b) || b == 46 || b == 45 || b == 95 }

  /** What an address in brackets is made of. */
  predicate IsAddressByte(b: byte) { IsHexByte(b) || b == 58 || b == 46 }

  predicate IsUserinfoByte(b: byte) { IsDigit(b) || IsLetterByte(b) || IsOneOf(b, "-_.!~*'()%;:&=+$,") }

  /** All but '?', '#', space and control characters, of which tabulator and form feed are allowed. */
  predicate IsPathByte(b: byte) { b == 9 || b == 12 || (b > 32 && b != 35 && b != 63 && b != 127) }

  lemma HostBytes(b: byte)
    ensures IsHostChar(b) <==> IsHostByte(b)
    ensures IsHex(b) <==> IsHexByte(b)
  {
  }

  lemma ServerBytes(b: byte)
    ensures var t := ServerNext(b);
            && (t.ReqPath? <==> b == 47) && (t.ReqQueryStringStart? <==> b == 63) && (t.ReqServerWithAt? <==> b == 64)
            && (t.ReqServer? <==> IsUserinfoByte(b) || b == 91 || b == 93)
            && (t.Dead? || t.ReqPath? || t.ReqQueryStringStart? || t.ReqServerWithAt? || t.ReqServer?)
    ensures IsUserinfoByte(b) ==> b != 35 && b != 47 && b != 63 && b != 64 && b != 91 && b != 93
  {
    UserinfoCharIs(b);
  }

  // ---------- where the states come from ----------

  predicate AtServer(s: State) { s.ReqServerStart? || InServer(s) }

  /** The byte and the state before it that lead to state t. */
  predicate ComesFrom(s: State, ch: byte, t: State) {
    && (t.ReqSchema? ==> IsLetterByte(ch) && (s.ReqSpacesBeforeUrl? || s.ReqSchema?))
    && (t.ReqSchemaSlash? ==> ch == 58 && s.ReqSchema?)
    && (t.ReqSchemaSlashSlash? ==> ch == 47 && s.ReqSchemaSlash?)
    && (t.ReqServerStart? ==> ch == 47 && s.ReqSchemaSlashSlash?)
    && (InServer(t) ==> AtServer(s) && ch != 35 && ch != 47 && ch != 63)
    && (t.ReqServerWithAt? <==> InServer(t) && ch == 64)
    && (t.ReqPath? ==>
          || (s.ReqSpacesBeforeUrl? && (ch == 47 || ch == 42))
          || (AtServer(s) && ch == 47)
          || (s.ReqPath? && IsPathByte(ch)))
    && (t.ReqQueryStringStart? ==> ch == 63 && (AtServer(s) || s.ReqPath?))
    && (t.ReqQueryString? ==> (IsPathByte(ch) || ch == 63) && (s.ReqQueryStringStart? || s.ReqQueryString?))
    && (t.ReqFragmentStart? ==>
          ch == 35 && (s.ReqPath? || s.ReqQueryStringStart? || s.ReqQueryString? || s.ReqFragmentStart?))
    && (t.ReqFragment? ==>
          || (s.ReqFragmentStart? && (IsPathByte(ch) || ch == 63))
          || (s.ReqFragment? && (IsPathByte(ch) || ch == 63 || ch == 35)))
  }

  lemma WhereFrom(s: State, ch: byte)
    ensures ComesFrom(s, ch, UrlNext(s, ch))
  {
    hide ServerNext, IsUrlChar, IsAlpha;
    AlphaIs(ch);
    UrlCharIs(ch);
    ServerBytes(ch);
  }

  predicate HostComesFrom(s: HostState, ch: byte, t: HostState) {
    && (t.UserinfoPart? ==> (s.UserinfoStart? || s.UserinfoPart?) && IsUserinfoByte(ch))
    && (t.HostStart? ==> (s.UserinfoStart? || s.UserinfoPart?) && ch == 64)
    && !t.UserinfoStart?
    && (t.V6Start? ==> s.HostStart? && ch == 91)
    && (t.V6Part? ==> (s.V6Start? || s.V6Part?) && IsAddressByte(ch))
    && (t.V6End? ==> s.V6Part? && ch == 93)
    && (t.HostPart? ==> (s.HostStart? || s.HostPart?) && IsHostByte(ch))
    && (t.PortStart? ==> (s.HostPart? || s.V6End?) && ch == 58)
    && (t.PortPart? ==> (s.PortStart? || s.PortPart?) && IsDigit(ch))
  }

  lemma HostWhereFrom(s: HostState, ch: byte)
    ensures HostComesFrom(s, ch, HostNext(s, ch))
  {
    AlphaIs(ch);
    HostBytes(ch);
    UserinfoCharIs(ch);
    hide IsOneOf;
  }

  function Before(buf: seq<byte>, connect: bool, i: nat): State
    requires i <= |buf|
  {
    if i == 0 then StartOf(connect) else After(buf, connect, i - 1)
  }

  lemma StateAt(buf: seq<byte>, connect: bool, i: nat)
    requires i < |buf|
    ensures ComesFrom(Before(buf, connect, i), buf[i], After(buf, connect, i))
  {
    WhereFrom(Before(buf, connect, i), buf[i]);
    NextState(buf, connect, i);
    hide UrlNext, ComesFrom;
  }

  /** The state of the second automaton before byte i. */
  function HostBefore(buf: seq<byte>, connect: bool, at: bool, i: nat): HostState
    requires i < |buf|
  {
    if i > 0 && ServerAt(buf, connect, i - 1) then HostAt(buf, connect, at, i - 1)
    else if at then UserinfoStart else HostStart
  }

  lemma HostStateAt(buf: seq<byte>, connect: bool, at: bool, i: nat)
    requires i < |buf|
    ensures HostComesFrom(HostBefore(buf, connect, at, i), buf[i], HostAt(buf, connect, at, i))
  {
    HostWhereFrom(HostBefore(buf, connect, at, i), buf[i]);
    hide HostNext, HostComesFrom, After;
  }

  // ---------- the parts ----------

  function End(s: Span): nat { s.off + s.len }

  predicate Inside(buf: seq<byte>, spans: map<UrlField, Span>, f: UrlField) {
    f in spans && spans[f].len > 0 && End(spans[f]) <= |buf|
  }

  /** The schema is letters from the first byte on, and followed by "://". */
  predicate SchemaIs(buf: seq<byte>, spans: map<UrlField, Span>) {
    Schema in spans ==>
      && Inside(buf, spans, Schema) && spans[Schema].off == 0
      && (forall i | 0 <= i < End(spans[Schema]) :: IsLetterByte(buf[i]))
      && var n := End(spans[Schema]); n + 3 <= |buf| && buf[n] == 58 && buf[n+1] == 47 && buf[n+2] == 47
  }

  /** The userinfo begins the URL or stands behind a '/', and is followed by '@'. */
  predicate UserinfoIs(buf: seq<byte>, spans: map<UrlField, Span>) {
    Userinfo in spans ==>
      && Inside(buf, spans, Userinfo)
      && (forall i | spans[Userinfo].off <= i < End(spans[Userinfo]) :: IsUserinfoByte(buf[i]))
      && (spans[Userinfo].off == 0 || buf[spans[Userinfo].off - 1] == 47)
      && End(spans[Userinfo]) < |buf| && buf[End(spans[Userinfo])] == 64
  }

  /** The host is an address in brackets, or a name that begins the URL or stands behind '/' or '@'. */
  predicate HostIs(buf: seq<byte>, spans: map<UrlField, Span>) {
    Host in spans ==>
      && Inside(buf, spans, Host)
      && var (off, end) := (spans[Host].off, End(spans[Host]));
         || (&& (forall i | off <= i < end :: IsAddressByte(buf[i]))
             && off > 0 && buf[off-1] == 91 && end < |buf| && buf[end] == 93)
         || (&& (forall i | off <= i < end :: IsHostByte(buf[i]))
             && (off == 0 || buf[off-1] == 47 || buf[off-1] == 64))
  }

  /** The port is digits behind a ':'. */
  predicate PortIs(buf: seq<byte>, spans: map<UrlField, Span>) {
    Port in spans ==>
      && Inside(buf, spans, Port) && spans[Port].off > 0 && buf[spans[Port].off - 1] == 58
      && forall i | spans[Port].off <= i < End(spans[Port]) :: IsDigit(buf[i])
  }

  /** The path begins with '/', or the URL with '*', and ends at '?', at '#' or with the URL. */
  predicate PathIs(buf: seq<byte>, spans: map<UrlField, Span>) {
    Path in spans ==>
      && Inside(buf, spans, Path)
      && var (off, end) := (spans[Path].off, End(spans[Path]));
         && (buf[off] == 47 || (off == 0 && buf[0] == 42))
         && (forall i | off < i < end :: IsPathByte(buf[i]))
         && (end < |buf| ==> buf[end] == 63 || buf[end] == 35)
  }

  /** The query stands behind the first '?' of the URL, before which there is no '#', and ends at '#'
      or with the URL. */
  predicate QueryIs(buf: seq<byte>, spans: map<UrlField, Span>) {
    Query in spans ==>
      && Inside(buf, spans, Query)
      && var (off, end) := (spans[Query].off, End(spans[Query]));
         && off > 0 && buf[off-1] == 63 && (forall i | 0 <= i < off - 1 :: buf[i] != 63 && buf[i] != 35)
         && (forall i | off <= i < end :: IsPathByte(buf[i]) || buf[i] == 63)
         && (end < |buf| ==> buf[end] == 35)
  }

  /** The fragment stands behind the first '#' of the URL and any that follow it, and ends with the
      URL. */
  ghost predicate FragmentIs(buf: seq<byte>, spans: map<UrlField, Span>) {
    Fragment in spans ==>
      && Inside(buf, spans, Fragment) && End(spans[Fragment]) == |buf| && buf[spans[Fragment].off] != 35
      && exists h: nat :: FirstHash(buf, h, spans[Fragment].off)
  }

  predicate FirstHash(buf: seq<byte>, h: nat, off: nat) {
    && h < off <= |buf| && (forall i | 0 <= i < h :: buf[i] != 35)
    && forall i | h <= i < off :: buf[i] == 35
  }

  ghost predicate PartsAre(buf: seq<byte>, spans: map<UrlField, Span>) {
    && SchemaIs(buf, spans) && UserinfoIs(buf, spans) && HostIs(buf, spans) && PortIs(buf, spans)
    && PathIs(buf, spans) && QueryIs(buf, spans) && FragmentIs(buf, spans)
  }

  // ---------- from the automata to the bytes ----------

  /** What is known of an accepted URL and its spans. */
  ghost predicate Known(buf: seq<byte>, connect: bool, at: bool, spans: map<UrlField, Span>) {
    && Alive(buf, connect, |buf|) && Spells(Owners(buf, connect, at, |buf|), ALL_FIELDS, spans)
    && (HasSchema(buf, connect) || HasServer(buf, connect) ==>
          HostAlive(buf, connect, at, |buf|) && ServerEndsWell(buf, connect, at))
  }

  lemma KnownIsAlive(buf: seq<byte>, connect: bool, at: bool, spans: map<UrlField, Span>)
    requires Known(buf, connect, at, spans)
    ensures Alive(buf, connect, |buf|)
  {
  }

  lemma IsField(f: UrlField)
    ensures f in ALL_FIELDS
  {
    match f {
      case Schema => case Userinfo => case Host => case Port => case Path => case Query => case Fragment =>
    }
  }

  /** How far the first automaton has got with byte i: 1 in the schema, 2 in what follows it, 3 in the
      server, 4 in the path, 5 at '?', 6 in the query, 7 at '#', 8 in the fragment. */
  function R(buf: seq<byte>, connect: bool, i: nat): nat
    requires i < |buf|
  {
    UrlRank(After(buf, connect, i))
  }

  /** What is known of byte i and field f. */
  lemma OwnedBy(buf: seq<byte>, connect: bool, at: bool, spans: map<UrlField, Span>, f: UrlField, i: nat)
    requires Known(buf, connect, at, spans) && i < |buf|
    ensures Owner(buf, connect, at, i) == Some(f) <==> f in spans && spans[f].off <= i < End(spans[f])
    ensures f in spans ==> Inside(buf, spans, f)
  {
    hide Owner, Owners, First, Count, Spells, ServerAt, After, HostAt;
    IsField(f);
    SpanIsExact(buf, connect, at, spans, f, i);
  }

  lemma NotEmpty(buf: seq<byte>, connect: bool, at: bool, spans: map<UrlField, Span>, f: UrlField)
    requires Known(buf, connect, at, spans) && f in spans
    ensures |buf| > 0 && Inside(buf, spans, f)
  {
    IsField(f);
    if |buf| == 0 {
      EmptySpells(buf, connect, at, spans, f);
    } else {
      OwnedBy(buf, connect, at, spans, f, 0);
    }
    hide Known;
  }

  /** A byte of an accepted URL by the rank: what it is, and what comes before it. */
  ghost predicate Ranked(buf: seq<byte>, connect: bool, i: nat)
    requires i < |buf|
  {
    var r, b := R(buf, connect, i), buf[i];
    && 1 <= r <= 8 && (i > 0 ==> 1 <= R(buf, connect, i - 1) <= r)
    && (r == 1 ==> IsLetterByte(b))
    && (r == 3 ==> b != 63 && b != 35 && b != 47)
    && (r == 4 ==> if i > 0 && R(buf, connect, i - 1) == 4 then IsPathByte(b) else b == 47 || (b == 42 && i == 0))
    && (r == 5 ==> b == 63 && (i > 0 ==> R(buf, connect, i - 1) < 5))
    && (r == 6 ==> i > 0 && R(buf, connect, i - 1) >= 5 && (IsPathByte(b) || b == 63))
    && (r == 7 ==> b == 35)
    && (r == 8 ==> i > 0 && R(buf, connect, i - 1) >= 7 && (R(buf, connect, i - 1) == 7 ==> b != 35))
    && (r < 5 ==> b != 63 && b != 35)
  }

  lemma RankIs(s: State)
    requires InUrl(s)
    ensures 1 <= UrlRank(s) <= 8
    ensures UrlRank(s) == 1 <==> s.ReqSchema?
    ensures UrlRank(s) == 2 <==> s.ReqSchemaSlash? || s.ReqSchemaSlashSlash? || s.ReqServerStart?
    ensures UrlRank(s) == 3 <==> InServer(s)
    ensures UrlRank(s) == 4 <==> s.ReqPath?
    ensures UrlRank(s) == 5 <==> s.ReqQueryStringStart?
    ensures UrlRank(s) == 6 <==> s.ReqQueryString?
    ensures UrlRank(s) == 7 <==> s.ReqFragmentStart?
    ensures UrlRank(s) == 8 <==> s.ReqFragment?
  {
  }

  lemma AliveIs(buf: seq<byte>, connect: bool, i: nat)
    requires Alive(buf, connect, |buf|) && i < |buf|
    ensures InUrl(After(buf, connect, i)) && ComesFrom(Before(buf, connect, i), buf[i], After(buf, connect, i))
    ensures 0 < i ==> R(buf, connect, i - 1) <= R(buf, connect, i)
  {
    assert !After(buf, connect, i).Dead?;
    AfterInUrl(buf, connect, i);
    StateAt(buf, connect, i);
    if 0 < i {
      NextState(buf, connect, i);
      UrlAdvances(After(buf, connect, i - 1), buf[i]);
    }
    hide After, ComesFrom, UrlNext, UrlRank;
  }

  lemma ByteOf(buf: seq<byte>, connect: bool, i: nat)
    requires Alive(buf, connect, |buf|) && i < |buf|
    ensures Ranked(buf, connect, i)
  {
    AliveIs(buf, connect, i);
    hide After, Alive, UrlRank, InServer;
    RankIs(After(buf, connect, i));
    if i > 0 {
      AliveIs(buf, connect, i - 1);
      RankIs(After(buf, connect, i - 1));
    }
    hide InUrl;
  }

  lemma {:induction false} RankUpTo(buf: seq<byte>, connect: bool, i: nat, j: nat)
    requires Alive(buf, connect, |buf|) && i <= j < |buf|
    ensures R(buf, connect, i) <= R(buf, connect, j)
    decreases j
  {
    hide Alive, R;
    if i < j {
      RankUpTo(buf, connect, i, j - 1);
      ByteOf(buf, connect, j);
    }
  }

  /** The owner of a byte by its rank, and by the state of the second automaton. */
  lemma OwnerIs(buf: seq<byte>, connect: bool, at: bool, i: nat)
    requires i < |buf| && Alive(buf, connect, |buf|)
    ensures var o, r, h := Owner(buf, connect, at, i), R(buf, connect, i), HostAt(buf, connect, at, i);
            && (o == Some(Schema) <==> r == 1) && (o == Some(Path) <==> r == 4)
            && (o == Some(Query) <==> r == 6) && (o == Some(Fragment) <==> r == 8)
            && (o == Some(Userinfo) <==> r == 3 && h.UserinfoPart?)
            && (o == Some(Host) <==> r == 3 && (h.HostPart? || h.V6Part?))
            && (o == Some(Port) <==> r == 3 && h.PortPart?)
            && (ServerAt(buf, connect, i) <==> r == 3)
  {
    AliveIs(buf, connect, i);
    hide After, HostAt, UrlRank, ComesFrom;
    RankIs(After(buf, connect, i));
  }

  /** Byte i is in the part f exactly if it is in its span. */
  lemma Part(buf: seq<byte>, connect: bool, at: bool, spans: map<UrlField, Span>, f: UrlField, i: nat)
    requires Known(buf, connect, at, spans) && i < |buf| && f in spans
    requires f.Schema? || f.Path? || f.Query? || f.Fragment?
    ensures R(buf, connect, i) == (if f.Schema? then 1 else if f.Path? then 4 else if f.Query? then 6 else 8) <==>
            spans[f].off <= i < End(spans[f])
    ensures Ranked(buf, connect, i)
  {
    OwnedBy(buf, connect, at, spans, f, i);
    OwnerIs(buf, connect, at, i);
    ByteOf(buf, connect, i);
    hide Alive, R, Owner, Spells, HasSchema, HasServer, Ranked;
  }

  // ---------- part by part ----------

  lemma PathPart(buf: seq<byte>, connect: bool, at: bool, spans: map<UrlField, Span>)
    requires Known(buf, connect, at, spans)
    ensures PathIs(buf, spans)
  {
    hide R, Known, IsPathByte;
    if Path in spans {
      NotEmpty(buf, connect, at, spans, Path);
      var off, n := spans[Path].off, End(spans[Path]);
      Part(buf, connect, at, spans, Path, off);
      if off > 0 {
        Part(buf, connect, at, spans, Path, off - 1);
      }
      forall i: nat | off < i < n ensures IsPathByte(buf[i]) {
        Part(buf, connect, at, spans, Path, i);
        Part(buf, connect, at, spans, Path, i - 1);
      }
      if n < |buf| {
        Part(buf, connect, at, spans, Path, n);
        Part(buf, connect, at, spans, Path, n - 1);
      }
    }
  }

  lemma QueryPart(buf: seq<byte>, connect: bool, at: bool, spans: map<UrlField, Span>)
    requires Known(buf, connect, at, spans)
    ensures QueryIs(buf, spans)
  {
    hide R, Known, IsPathByte, Alive;
    if Query in spans {
      NotEmpty(buf, connect, at, spans, Query);
      var off, n := spans[Query].off, End(spans[Query]);
      KnownIsAlive(buf, connect, at, spans);
      Part(buf, connect, at, spans, Query, off);
      Part(buf, connect, at, spans, Query, off - 1);
      forall i: nat | off <= i < n ensures IsPathByte(buf[i]) || buf[i] == 63 {
        Part(buf, connect, at, spans, Query, i);
      }
      forall i: nat | i < off - 1 ensures buf[i] != 63 && buf[i] != 35 {
        RankUpTo(buf, connect, i, off - 2);
        Part(buf, connect, at, spans, Query, off - 1);
        ByteOf(buf, connect, i);
      }
      if n < |buf| {
        Part(buf, connect, at, spans, Query, n);
        Part(buf, connect, at, spans, Query, n - 1);
        BehindQuery(buf, connect, n);
      }
    }
  }

  lemma BehindQuery(buf: seq<byte>, connect: bool, i: nat)
    requires 0 < i < |buf| && Ranked(buf, connect, i) && R(buf, connect, i - 1) == 6 && R(buf, connect, i) != 6
    ensures buf[i] == 35
  {
    hide R;
  }

  lemma FragmentPart(buf: seq<byte>, connect: bool, at: bool, spans: map<UrlField, Span>)
    requires Known(buf, connect, at, spans)
    ensures FragmentIs(buf, spans)
  {
    hide R, Known, Alive;
    if Fragment in spans {
      NotEmpty(buf, connect, at, spans, Fragment);
      var off, n := spans[Fragment].off, End(spans[Fragment]);
      KnownIsAlive(buf, connect, at, spans);
      Part(buf, connect, at, spans, Fragment, off);
      Part(buf, connect, at, spans, Fragment, off - 1);
      if n < |buf| {
        Part(buf, connect, at, spans, Fragment, n);
        Part(buf, connect, at, spans, Fragment, n - 1);
      }
      var h := FirstAtHash(buf, connect, off - 1);
      forall i: nat | i < h ensures buf[i] != 35 {
        RankUpTo(buf, connect, i, h - 1);
        ByteOf(buf, connect, i);
        BeforeHash(buf, connect, i);
      }
      forall i: nat | h <= i < off ensures buf[i] == 35 {
        ByteOf(buf, connect, i);
      }
      assert FirstHash(buf, h, off);
    }
  }

  lemma BeforeHash(buf: seq<byte>, connect: bool, i: nat)
    requires i < |buf| && Ranked(buf, connect, i) && R(buf, connect, i) < 7
    ensures buf[i] != 35
  {
    hide R;
  }

  /** The first of the bytes of rank 7 that end with byte j. */
  lemma {:induction false} FirstAtHash(buf: seq<byte>, connect: bool, j: nat) returns (h: nat)
    requires j < |buf| && R(buf, connect, j) == 7 && Alive(buf, connect, |buf|)
    ensures h <= j && (forall i: nat | h <= i <= j :: R(buf, connect, i) == 7)
    ensures h > 0 ==> R(buf, connect, h - 1) < 7
    decreases j
  {
    hide R, Alive;
    h := j;
    ByteOf(buf, connect, j);
    if j > 0 && R(buf, connect, j - 1) == 7 {
      h := FirstAtHash(buf, connect, j - 1);
    }
  }

  /** Behind the schema come ':', '/' and '/', since a server must follow. */
  lemma SchemaPart(buf: seq<byte>, connect: bool, at: bool, spans: map<UrlField, Span>)
    requires Known(buf, connect, at, spans)
    ensures SchemaIs(buf, spans)
  {
    hide R, Known, Alive;
    if Schema in spans {
      NotEmpty(buf, connect, at, spans, Schema);
      var off, n := spans[Schema].off, End(spans[Schema]);
      ServerFollows(buf, connect, at, spans);
      var j :| 0 <= j < |buf| && R(buf, connect, j) == 3;
      KnownIsAlive(buf, connect, at, spans);
      Part(buf, connect, at, spans, Schema, off);
      if off > 0 {
        Part(buf, connect, at, spans, Schema, off - 1);
      }
      forall i: nat | i < n ensures IsLetterByte(buf[i]) {
        Part(buf, connect, at, spans, Schema, i);
      }
      Part(buf, connect, at, spans, Schema, n - 1);
      if j < n {
        RankUpTo(buf, connect, j, n - 1);
      }
      Part(buf, connect, at, spans, Schema, n);
      BehindSchema(buf, connect, n, j);
    }
  }

  lemma ServerFollows(buf: seq<byte>, connect: bool, at: bool, spans: map<UrlField, Span>)
    requires Known(buf, connect, at, spans) && Schema in spans && |buf| > 0 && Inside(buf, spans, Schema)
    ensures exists j :: 0 <= j < |buf| && R(buf, connect, j) == 3
  {
    OwnedBy(buf, connect, at, spans, Schema, spans[Schema].off);
    OwnerIs(buf, connect, at, spans[Schema].off);
    AliveIs(buf, connect, spans[Schema].off);
    RankIs(After(buf, connect, spans[Schema].off));
    assert HasSchema(buf, connect);
    var j: nat :| j < |buf| && EndsAt(buf, connect, at, j);
    OwnerIs(buf, connect, at, j);
    hide After, HostAt, R;
  }

  lemma BehindSchema(buf: seq<byte>, connect: bool, n: nat, j: nat)
    requires Alive(buf, connect, |buf|) && 0 < n <= j < |buf|
    requires R(buf, connect, n - 1) == 1 && R(buf, connect, n) != 1 && R(buf, connect, j) == 3
    ensures n + 3 <= |buf| && buf[n] == 58 && buf[n+1] == 47 && buf[n+2] == 47
  {
    hide After, Alive, UrlRank;
    StateAfter(buf, connect, n - 1);
    StateAfter(buf, connect, n);
    hide AtServer;
    assert After(buf, connect, n).ReqSchemaSlash?;
    assert n != j;
    StateAfter(buf, connect, n + 1);
    assert After(buf, connect, n + 1).ReqSchemaSlashSlash?;
    assert n + 1 != j;
    StateAfter(buf, connect, n + 2);
    assert After(buf, connect, n + 2).ReqServerStart?;
  }

  lemma StateAfter(buf: seq<byte>, connect: bool, i: nat)
    requires Alive(buf, connect, |buf|) && i < |buf|
    ensures var s, t, ch := Before(buf, connect, i), After(buf, connect, i), buf[i];
            && (R(buf, connect, i) == 1 <==> t.ReqSchema?) && (R(buf, connect, i) == 3 <==> InServer(t))
            && (s.ReqSchema? && !t.ReqSchema? ==> ch == 58 && t.ReqSchemaSlash?)
            && (s.ReqSchemaSlash? ==> ch == 47 && t.ReqSchemaSlashSlash?)
            && (s.ReqSchemaSlashSlash? ==> ch == 47 && t.ReqServerStart?)
  {
    AliveIs(buf, connect, i);
    hide After, Alive, UrlRank;
    RankIs(After(buf, connect, i));
  }

  // ---------- the parts of the server ----------

  /** A byte of the server: its state and the one before it. */
  ghost predicate InHost(buf: seq<byte>, connect: bool, at: bool, i: nat)
    requires i < |buf|
  {
    && R(buf, connect, i) == 3
    && HostComesFrom(HostBefore(buf, connect, at, i), buf[i], HostAt(buf, connect, at, i))
    && !HostAt(buf, connect, at, i).HostDead?
    && (i > 0 && R(buf, connect, i - 1) != 3 ==> buf[i-1] == 47)
    && HostBefore(buf, connect, at, i) ==
         if i > 0 && R(buf, connect, i - 1) == 3 then HostAt(buf, connect, at, i - 1)
         else if at then UserinfoStart else HostStart
  }

  lemma HostByte(buf: seq<byte>, connect: bool, at: bool, spans: map<UrlField, Span>, i: nat)
    requires Known(buf, connect, at, spans) && i < |buf| && R(buf, connect, i) == 3
    ensures InHost(buf, connect, at, i)
  {
    OwnerIs(buf, connect, at, i);
    assert HasServer(buf, connect);
    HostStateAt(buf, connect, at, i);
    assert !HostAt(buf, connect, at, i).HostDead?;
    BehindSlash(buf, connect, i);
    if i > 0 {
      OwnerIs(buf, connect, at, i - 1);
    }
    hide R, After, HostAt, Owner, HostComesFrom;
  }

  lemma BehindSlash(buf: seq<byte>, connect: bool, i: nat)
    requires Alive(buf, connect, |buf|) && i < |buf| && R(buf, connect, i) == 3
    ensures i > 0 && R(buf, connect, i - 1) != 3 ==> buf[i-1] == 47
  {
    AliveIs(buf, connect, i);
    if i > 0 {
      AliveIs(buf, connect, i - 1);
      RankIs(After(buf, connect, i - 1));
    }
    RankIs(After(buf, connect, i));
    hide After, Alive, UrlRank;
  }

  /** Byte i is in a part of the server exactly if it is in its span. */
  lemma ServerPart(buf: seq<byte>, connect: bool, at: bool, spans: map<UrlField, Span>, f: UrlField, i: nat)
    requires Known(buf, connect, at, spans) && i < |buf| && f in spans && (f.Userinfo? || f.Host? || f.Port?)
    ensures spans[f].off <= i < End(spans[f]) <==>
            var h := HostAt(buf, connect, at, i);
            R(buf, connect, i) == 3 &&
            if f.Userinfo? then h.UserinfoPart? else if f.Port? then h.PortPart? else h.HostPart? || h.V6Part?
    ensures R(buf, connect, i) == 3 ==> InHost(buf, connect, at, i)
  {
    OwnedBy(buf, connect, at, spans, f, i);
    OwnerIs(buf, connect, at, i);
    if R(buf, connect, i) == 3 {
      HostByte(buf, connect, at, spans, i);
    }
    hide Known, R, Owner, HostAt, InHost;
  }

  lemma LastOfServer(buf: seq<byte>, connect: bool, at: bool, spans: map<UrlField, Span>, i: nat) returns (j: nat)
    requires Known(buf, connect, at, spans) && i < |buf| && R(buf, connect, i) == 3
    ensures j < |buf| && R(buf, connect, j) == 3 && (j + 1 < |buf| ==> R(buf, connect, j + 1) != 3)
    ensures GoodEnd(HostAt(buf, connect, at, j))
  {
    OwnerIs(buf, connect, at, i);
    assert HasServer(buf, connect);
    j :| j < |buf| && EndsAt(buf, connect, at, j);
    OwnerIs(buf, connect, at, j);
    if j + 1 < |buf| {
      OwnerIs(buf, connect, at, j + 1);
    }
    hide HostAt, GoodEnd, R, Owner;
  }

  /** The last byte of the server part leaves the second automaton in a good state. */
  lemma ServerGoesOn(buf: seq<byte>, connect: bool, at: bool, spans: map<UrlField, Span>, i: nat)
    requires Known(buf, connect, at, spans) && i < |buf| && R(buf, connect, i) == 3
    requires !GoodEnd(HostAt(buf, connect, at, i))
    ensures i + 1 < |buf| && R(buf, connect, i + 1) == 3
  {
    hide Known, HostAt, GoodEnd, R;
    KnownIsAlive(buf, connect, at, spans);
    var j := LastOfServer(buf, connect, at, spans, i);
    hide Alive;
    if j < i {
      RankUpTo(buf, connect, j, j + 1);
      RankUpTo(buf, connect, j + 1, i);
    } else {
      RankUpTo(buf, connect, i, i + 1);
      RankUpTo(buf, connect, i + 1, j);
    }
  }

  lemma UserinfoPart(buf: seq<byte>, connect: bool, at: bool, spans: map<UrlField, Span>)
    requires Known(buf, connect, at, spans)
    ensures UserinfoIs(buf, spans)
  {
    hide R, HostAt, Known, IsUserinfoByte, IsHostByte, IsAddressByte;
    if Userinfo in spans {
      NotEmpty(buf, connect, at, spans, Userinfo);
      var off, n := spans[Userinfo].off, End(spans[Userinfo]);
      forall i: nat | off <= i < n ensures IsUserinfoByte(buf[i]) {
        ServerPart(buf, connect, at, spans, Userinfo, i);
      }
      ServerPart(buf, connect, at, spans, Userinfo, off);
      if off > 0 {
        ServerPart(buf, connect, at, spans, Userinfo, off - 1);
      }
      ServerPart(buf, connect, at, spans, Userinfo, n - 1);
      ServerGoesOn(buf, connect, at, spans, n - 1);
      ServerPart(buf, connect, at, spans, Userinfo, n);
    }
  }

  lemma PortPart(buf: seq<byte>, connect: bool, at: bool, spans: map<UrlField, Span>)
    requires Known(buf, connect, at, spans)
    ensures PortIs(buf, spans)
  {
    hide R, HostAt, Known, IsUserinfoByte, IsHostByte, IsAddressByte;
    if Port in spans {
      NotEmpty(buf, connect, at, spans, Port);
      var off, n := spans[Port].off, End(spans[Port]);
      forall i: nat | off <= i < n ensures IsDigit(buf[i]) {
        ServerPart(buf, connect, at, spans, Port, i);
      }
      ServerPart(buf, connect, at, spans, Port, off);
      ServerPart(buf, connect, at, spans, Port, off - 1);
    }
  }

  lemma {:induction false} HostIsOneKind(buf: seq<byte>, connect: bool, at: bool, spans: map<UrlField, Span>, i: nat)
    requires Known(buf, connect, at, spans) && Host in spans && spans[Host].off <= i < End(spans[Host]) <= |buf|
    ensures var h := HostAt(buf, connect, at, i);
            && h == HostAt(buf, connect, at, spans[Host].off)
            && ((h.HostPart? && IsHostByte(buf[i])) || (h.V6Part? && IsAddressByte(buf[i])))
    decreases i
  {
    hide R, HostAt, Known, IsUserinfoByte, IsHostByte, IsAddressByte;
    ServerPart(buf, connect, at, spans, Host, i);
    if spans[Host].off < i {
      ServerPart(buf, connect, at, spans, Host, i - 1);
      HostIsOneKind(buf, connect, at, spans, i - 1);
    }
  }

  /** The bytes before and behind the host. */
  lemma HostEdges(buf: seq<byte>, connect: bool, at: bool, spans: map<UrlField, Span>)
    requires Known(buf, connect, at, spans) && Host in spans && Inside(buf, spans, Host)
    ensures var off, n := spans[Host].off, End(spans[Host]);
            if HostAt(buf, connect, at, off).V6Part? then off > 0 && buf[off-1] == 91 && n < |buf| && buf[n] == 93
            else off == 0 || buf[off-1] == 47 || buf[off-1] == 64
  {
    hide R, HostAt, Known, IsUserinfoByte, IsHostByte, IsAddressByte;
    var off, n := spans[Host].off, End(spans[Host]);
    HostIsOneKind(buf, connect, at, spans, off);
    ServerPart(buf, connect, at, spans, Host, off);
    if off > 0 {
      ServerPart(buf, connect, at, spans, Host, off - 1);
    }
    if HostAt(buf, connect, at, off).V6Part? {
      HostIsOneKind(buf, connect, at, spans, n - 1);
      ServerPart(buf, connect, at, spans, Host, n - 1);
      ServerGoesOn(buf, connect, at, spans, n - 1);
      ServerPart(buf, connect, at, spans, Host, n);
    }
  }

  lemma HostPart(buf: seq<byte>, connect: bool, at: bool, spans: map<UrlField, Span>)
    requires Known(buf, connect, at, spans)
    ensures HostIs(buf, spans)
  {
    hide R, HostAt, Known, IsUserinfoByte, IsHostByte, IsAddressByte;
    if Host in spans {
      NotEmpty(buf, connect, at, spans, Host);
      var off, n := spans[Host].off, End(spans[Host]);
      forall i: nat | off <= i < n
        ensures var h := HostAt(buf, connect, at, off);
                (h.HostPart? && IsHostByte(buf[i])) || (h.V6Part? && IsAddressByte(buf[i]))
      {
        HostIsOneKind(buf, connect, at, spans, i);
      }
      HostEdges(buf, connect, at, spans);
    }
  }

  /** The parts of an accepted URL: their characters and the delimiters around them. */
  lemma PartsByBytes(buf: seq<byte>, connect: bool, spans: map<UrlField, Span>)
    requires Accepts(buf, connect, spans)
    ensures PartsAre(buf, spans)
  {
    var at := HasAt(buf, connect, |buf|);
    assert Known(buf, connect, at, spans);
    hide Known, Spells, Alive, HostAlive, Owners, SchemaIs, UserinfoIs, HostIs, PortIs, PathIs, QueryIs, FragmentIs;
    SchemaPart(buf, connect, at, spans);
    UserinfoPart(buf, connect, at, spans);
    HostPart(buf, connect, at, spans);
    PortPart(buf, connect, at, spans);
    PathPart(buf, connect, at, spans);
    QueryPart(buf, connect, at, spans);
    FragmentPart(buf, connect, at, spans);
  }

  /** In the server part no '@' follows another one at once. */
  lemma NoTwoAts(buf: seq<byte>, connect: bool, i: nat)
    requires Alive(buf, connect, |buf|) && i + 1 < |buf| && ServerAt(buf, connect, i)
    ensures !(buf[i] == 64 && buf[i+1] == 64)
  {
    hide After;
    NextState(buf, connect, i);
    NextState(buf, connect, i + 1);
    assert !After(buf, connect, i + 1).Dead?;
    AtFollows(if i == 0 then StartOf(connect) else After(buf, connect, i - 1));
  }

  lemma AtFollows(s: State)
    ensures InServer(UrlNext(s, 64)) ==> UrlNext(UrlNext(s, 64), 64).Dead?
  {
  }
}
