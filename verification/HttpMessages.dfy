/** The round trip of a message: a request or a response, written down, is read as what it is. */
module HttpMessages {
  import opened Common
  import opened HttpTypes
  import opened HttpCases
  import opened HttpMachine
  import HttpInvariant
  import opened HttpReads
  import opened HttpFirstLines
  import opened HttpKeywords
  import opened HttpAscii
  import opened HttpLines
  import opened HttpValues

  // ---------- header lines ----------

  /** A header: its name, the white space behind the colon, and its value. */
  datatype Header = Header(name: seq<byte>, pad: seq<byte>, value: seq<byte>)

  predicate AreBlanks(w: seq<byte>) { forall i | 0 <= i < |w| :: IsBlank(w[i]) }

  predicate GoodHeader(h: Header) {
    && IsName(h.name) && h.name[0] != 32 && AreBlanks(h.pad) && IsText(h.value) && h.value != [] && !IsBlank(h.value[0])
    && (IsKeyword(h.name, "content-length") ==> IsLength(h.value) && Decimal(h.value) < ULLONG_MAX - 5)
  }

  function HeaderText(h: Header): seq<byte> { h.name + ([58] + (h.pad + (h.value + [CR, LF]))) }

  predicate IsConnection(h: Header) { IsKeyword(h.name, "connection") || IsKeyword(h.name, "proxy-connection") }

  predicate Mentions(h: Header, word: string) { IsConnection(h) && exists t | t in Tokens(h.value) :: IsWord(t, word) }

  /** What a header means for the framing of the message and the connection. */
  function FlagsWith(f: Flags, h: Header): Flags {
    f.(chunked := f.chunked || (IsKeyword(h.name, "transfer-encoding") && IsWord(h.value, "chunked")),
       keepAlive := f.keepAlive || Mentions(h, "keep-alive"),
       close := f.close || Mentions(h, "close"),
       connectionUpgrade := f.connectionUpgrade || Mentions(h, "upgrade"),
       upgrade := f.upgrade || IsKeyword(h.name, "upgrade"))
  }

  function LengthWith(n: nat, h: Header): nat
    requires GoodHeader(h)
  {
    if IsKeyword(h.name, "content-length") then
      DecimalIsNatural(h.value);
      Decimal(h.value)
    else n
  }

  // the name

  lemma NameFirst(p: Parser, ch: byte)
    requires p.state.HeaderFieldStart? && Token(ch) != 0
    ensures CaseOf(p, ch) ==
              Case(p.(index := 0, state := HeaderField, headerState := FieldFirst(Token(ch))), Advance, mark := Some(Field))
  {
    FieldCases(p, ch);
    LineEndIsNoToken(ch);
    hide CaseOf, FieldFirst, Token;
  }

  lemma LineEndIsNoToken(ch: byte)
    ensures Token(ch) != 0 ==> ch != CR && ch != LF
  {
  }

  lemma NameMore(p: Parser, ch: byte)
    requires p.state.HeaderField? && Token(ch) != 0
    ensures var k := CaseOf(p, ch);
            k == Case(k.p, Advance) && k.p == p.(headerState := k.p.headerState, index := k.p.index)
  {
    FieldCases(p, ch);
    hide CaseOf, FieldNext, Token;
  }

  lemma {:induction false} NameBytesAreRead(p: Parser, trace: seq<Event>, bytes: seq<byte>, w: seq<byte>) returns (q: Parser)
    requires p.state.HeaderField? && forall i | 0 <= i < |w| :: Token(w[i]) != 0
    ensures Follow(p, w) == Some(q) && q == p.(headerState := q.headerState, index := q.index)
    ensures Reads(At(p, trace, Open(Field, bytes)), w, At(q, trace, Open(Field, bytes + w)))
    decreases |w|
  {
    hide CaseOf, Reads, Token;
    if w == [] {
      q := p;
      ReadsNothing(At(p, trace, Open(Field, bytes)));
      assert bytes + w == bytes;
    } else {
      var n := |w| - 1;
      var r := NameBytesAreRead(p, trace, bytes, w[..n]);
      NameMore(r, w[n]);
      q := CaseOf(r, w[n]).p;
      ReadsPlain(r, trace, Open(Field, bytes + w[..n]), w[n], q);
      ReadsAppend(At(p, trace, Open(Field, bytes)), w[..n], At(r, trace, Open(Field, bytes + w[..n])), [w[n]],
                  At(q, trace, Open(Field, bytes + w[..n] + [w[n]])));
      assert w[..n] + [w[n]] == w && bytes + w[..n] + [w[n]] == bytes + w;
    }
  }

  /** What the header state says of a name that has been read up to its colon. */
  ghost predicate NameKnown(h: HeaderState, name: seq<byte>) {
    && (h.Connection? <==> IsKeyword(name, "connection") || IsKeyword(name, "proxy-connection"))
    && (h.ContentLength? <==> IsKeyword(name, "content-length"))
    && (h.TransferEncoding? <==> IsKeyword(name, "transfer-encoding"))
    && (h.Upgrade? <==> IsKeyword(name, "upgrade"))
    && !h.MatchingConnectionTokenStart?
  }

  lemma NameIsKnown(p: Parser, name: seq<byte>, q: Parser)
    requires p.state.HeaderFieldStart? && IsName(name) && Follow(p, name) == Some(q)
    ensures q.state.HeaderField? && NameKnown(q.headerState, name)
  {
    hide CaseOf, IsKeyword, Recognised;
    NameIsRead(p, name);
    NoTokenStart(name, q.headerState, q.index);
    HeaderNameRecognition(p, name);
    FollowSnoc(p, name, ':' as int);
    ColonEndsName(q);
    hide Follow, IsName;
  }

  lemma NoTokenStart(w: seq<byte>, h: HeaderState, i: nat)
    requires Recognised(w, h, i)
    ensures !h.MatchingConnectionTokenStart?
  {
    hide Matches;
  }

  lemma NameIsHeard(p: Parser, trace: seq<Event>, name: seq<byte>) returns (q: Parser)
    requires p.state.HeaderFieldStart? && IsName(name)
    ensures q == p.(state := HeaderValueDiscardWs, headerState := q.headerState, index := q.index)
    ensures NameKnown(q.headerState, name)
    ensures Reads(At(p, trace, Closed), name + [58], At(q, Emit(trace, Data(Field, name)), Closed))
  {
    hide CaseOf, Reads, Token, NameKnown;
    forall i | 0 <= i < |name| ensures Token(name[i]) != 0 {
      NameBytes(name[i]);
    }
    NameFirst(p, name[0]);
    var first := p.(index := 0, state := HeaderField, headerState := FieldFirst(Token(name[0])));
    ReadsMark(p, trace, name[0], first, Field);
    var r := NameBytesAreRead(first, trace, [name[0]], name[1..]);
    assert [name[0]] + name[1..] == name;
    ReadsAppend(At(p, trace, Closed), [name[0]], At(first, trace, Open(Field, [name[0]])), name[1..], At(r, trace, Open(Field, name)));
    FollowJoins(p, name, first, r);
    NameIsKnown(p, name, r);
    q := r.(state := HeaderValueDiscardWs);
    ColonCase(r);
    ReadsClose(r, trace, name, 58, q, Field);
    ReadsAppend(At(p, trace, Closed), name, At(r, trace, Open(Field, name)), [58], At(q, Emit(trace, Data(Field, name)), Closed));
  }

  lemma ColonCase(p: Parser)
    requires p.state.HeaderField?
    ensures CaseOf(p, 58) == Case(p.(state := HeaderValueDiscardWs), Advance, close := CloseBefore(Field))
  {
    FieldCases(p, 58);
    hide CaseOf;
  }

  lemma {:induction false} FollowJoins(p: Parser, w: seq<byte>, first: Parser, q: Parser)
    requires w != [] && CaseOf(p, w[0]).next.Advance? && CaseOf(p, w[0]).p == first && Follow(first, w[1..]) == Some(q)
    ensures Follow(p, w) == Some(q)
    decreases |w|
  {
    hide CaseOf;
    var n := |w| - 1;
    if n == 0 {
      assert w[..0] == [];
    } else {
      assert w[1..][..n-1] == w[..n][1..] && w[1..][n-1] == w[n];
      FollowJoins(p, w[..n], first, Follow(first, w[1..][..n-1]).value);
    }
  }

  // the value

  lemma {:induction false} PadIsRead(p: Parser, trace: seq<Event>, w: seq<byte>)
    requires p.state.HeaderValueDiscardWs? && AreBlanks(w)
    ensures Reads(At(p, trace, Closed), w, At(p, trace, Closed))
    decreases |w|
  {
    hide CaseOf, Reads;
    if w == [] {
      ReadsNothing(At(p, trace, Closed));
    } else {
      DiscardWsCases(p, w[0]);
      ReadsPlain(p, trace, Closed, w[0], p);
      PadIsRead(p, trace, w[1..]);
      ReadsAppend(At(p, trace, Closed), [w[0]], At(p, trace, Closed), w[1..], At(p, trace, Closed));
      assert [w[0]] + w[1..] == w;
    }
  }

  lemma ValueByte(p: Parser, ch: byte)
    requires p.state.HeaderValue? && ch != CR && ch != LF && Through(p, ch).Some?
    ensures var q := Through(p, ch).value; CaseOf(p, ch) == Case(q, Advance) && q.state.HeaderValue?
  {
    LineCases(p, ch);
    hide CaseOf, ValueNext, AddLengthDigit;
  }

  lemma {:induction false} ValueRest(p: Parser, trace: seq<Event>, bytes: seq<byte>, w: seq<byte>)
    requires p.state.HeaderValue? && IsText(w) && Passes(p, w).Some?
    ensures var q := Passes(p, w).value;
            q.state.HeaderValue? && Reads(At(p, trace, Open(Value, bytes)), w, At(q, trace, Open(Value, bytes + w)))
    decreases |w|
  {
    hide CaseOf, Reads, Through;
    if w == [] {
      ReadsNothing(At(p, trace, Open(Value, bytes)));
      assert bytes + w == bytes;
    } else {
      ValueByte(p, w[0]);
      var q := Through(p, w[0]).value;
      ReadsPlain(p, trace, Open(Value, bytes), w[0], q);
      ValueRest(q, trace, bytes + [w[0]], w[1..]);
      ReadsAppend(At(p, trace, Open(Value, bytes)), [w[0]], At(q, trace, Open(Value, bytes + [w[0]])), w[1..],
                  At(Passes(p, w).value, trace, Open(Value, bytes + [w[0]] + w[1..])));
      assert [w[0]] + w[1..] == w && bytes + [w[0]] + w[1..] == bytes + w;
    }
  }

  lemma ValueFirst(p: Parser, ch: byte)
    requires p.state.HeaderValueDiscardWs? && !IsBlank(ch) && ch != CR && ch != LF && Through(p, ch).Some?
    ensures var q := Through(p, ch).value;
            q == ValueStartCase(p, ch).p && CaseOf(p, ch) == Case(q, Advance, mark := Some(Value)) && q.state.HeaderValue?
  {
    DiscardWsCases(p, ch);
    hide CaseOf, ConnectionToken;
  }

  lemma ValueCloses(p: Parser)
    ensures p.state.HeaderValue? ==>
              CaseOf(p, CR) == Case(p.(state := HeaderAlmostDone), Advance, close := CloseBefore(Value))
    ensures p.state.HeaderAlmostDone? ==> CaseOf(p, LF) == Case(p.(state := HeaderValueLws), Advance)
  {
    LineCases(p, CR);
    LineCases(p, LF);
    hide CaseOf;
  }

  /** A value that is not rejected, and the end of its line. */
  lemma ValueIsHeard(p: Parser, trace: seq<Event>, v: seq<byte>)
    requires p.state.HeaderValueDiscardWs? && IsText(v) && v != [] && !IsBlank(v[0]) && Passes(p, v).Some?
    ensures var q := Passes(p, v).value;
            && q.state.HeaderValue?
            && Reads(At(p, trace, Closed), v + [CR, LF], At(q.(state := HeaderValueLws), Emit(trace, Data(Value, v)), Closed))
  {
    hide CaseOf, Reads, Through;
    var q, t := Passes(p, v).value, Emit(trace, Data(Value, v));
    ValueFirst(p, v[0]);
    var first := Through(p, v[0]).value;
    ReadsMark(p, trace, v[0], first, Value);
    ValueRest(first, trace, [v[0]], v[1..]);
    assert [v[0]] + v[1..] == v;
    ReadsAppend(At(p, trace, Closed), [v[0]], At(first, trace, Open(Value, [v[0]])), v[1..], At(q, trace, Open(Value, v)));
    ValueCloses(q);
    ValueCloses(q.(state := HeaderAlmostDone));
    ReadsClose(q, trace, v, CR, q.(state := HeaderAlmostDone), Value);
    ReadsPlain(q.(state := HeaderAlmostDone), t, Closed, LF, q.(state := HeaderValueLws));
    ReadsAppend(At(p, trace, Closed), v, At(q, trace, Open(Value, v)), [CR], At(q.(state := HeaderAlmostDone), t, Closed));
    ReadsAppend(At(p, trace, Closed), v + [CR], At(q.(state := HeaderAlmostDone), t, Closed), [LF],
                At(q.(state := HeaderValueLws), t, Closed));
    assert v + [CR] + [LF] == v + [CR, LF];
  }

  // what the value means

  /** The parser once a line is complete: its flags are set, and the next one can begin. */
  function Settle(p: Parser): Parser {
    if p.state.HeaderValueLws? then p.(flags := ValueFlags(p.flags, p.headerState), state := HeaderFieldStart) else p
  }

  /** What a value leaves behind: only these fields change. */
  ghost predicate ValueMeans(p: Parser, q: Parser, flags: Flags, length: int) {
    && q.state.HeaderValue? && ValueFlags(q.flags, q.headerState) == flags && q.contentLength == length
    && q == p.(state := HeaderValue, flags := q.flags, headerState := q.headerState, index := q.index,
               contentLength := q.contentLength)
  }

  lemma {:induction false} ReadFrame(p: Parser, w: seq<byte>)
    ensures var q := Read(p, w); q == p.(flags := q.flags, headerState := q.headerState, index := q.index)
    decreases |w|
  {
    hide ValueNext;
    if w != [] {
      HttpInvariant.ValueNextFrame(p, w[0]);
      ReadFrame(ValueNext(p, w[0]), w[1..]);
    }
  }

  /** Values that are not lengths are read by ValueNext. */
  lemma OtherValue(p: Parser, v: seq<byte>)
    requires p.state.HeaderValueDiscardWs? && !p.headerState.ContentLength? && IsText(v) && v != [] && !IsBlank(v[0])
    ensures var first := ValueStartCase(p, v[0]).p;
            && Passes(p, v) == Some(Read(first, v[1..])) && InValue(Read(first, v[1..]))
            && first == p.(state := HeaderValue, index := 0, flags := first.flags, headerState := first.headerState)
  {
    hide CaseOf, Read, ValueNext;
    var first := ValueStartCase(p, v[0]).p;
    DiscardWsCases(p, v[0]);
    HttpLines.ConnectionTokens(Lower(v[0]));
    assert Through(p, v[0]) == Some(first);
    ValueIsRead(first, v[1..]);
    hide Lower, ConnectionToken;
  }

  /** Values of other headers set nothing, but the flag of Upgrade. */
  lemma PlainValue(p: Parser, v: seq<byte>)
    requires p.state.HeaderValueDiscardWs? && IsText(v) && v != [] && !IsBlank(v[0])
    requires !p.headerState.ContentLength? && !p.headerState.TransferEncoding? && !p.headerState.Connection?
    requires !p.headerState.MatchingConnectionTokenStart?
    ensures Passes(p, v).Some?
    ensures ValueMeans(p, Passes(p, v).value, p.flags.(upgrade := p.flags.upgrade || p.headerState.Upgrade?), p.contentLength)
  {
    OtherValue(p, v);
    var first := ValueStartCase(p, v[0]).p;
    GeneralStays(first, v[1..]);
    GeneralSays(first.flags);
    hide Passes, Read, CaseOf;
  }

  lemma EncodingValue(p: Parser, v: seq<byte>)
    requires p.state.HeaderValueDiscardWs? && p.headerState.TransferEncoding? && IsText(v) && v != [] && !IsBlank(v[0])
    ensures Passes(p, v).Some?
    ensures ValueMeans(p, Passes(p, v).value, p.flags.(chunked := p.flags.chunked || IsWord(v, "chunked")), p.contentLength)
  {
    hide CaseOf, Passes, Read, ValueFlags, IsWord, ValueStartCase;
    var l := Line(v, [CR, LF]);
    OtherValue(p, v);
    TransferEncodingValue(p, [], l, [], 65);
    SettledLine(p, v);
    ReadFrame(ValueStartCase(p, v[0]).p, v[1..]);
  }

  /** What the theorems on values say of the whole line, said of the value. */
  lemma SettledLine(p: Parser, v: seq<byte>)
    requires p.state.HeaderValueDiscardWs? && IsText(v) && v != [] && !IsBlank(v[0])
    requires p.headerState.Connection? || p.headerState.TransferEncoding?
    ensures var l := Line(v, [CR, LF]);
            var q := Read(ValueStartCase(p, v[0]).p, v[1..]).(state := HeaderValueLws);
            && Passes(p, [] + (l.text + l.end) + Flat([])) == Some(q)
            && CaseOf(q, 65).p.flags == ValueFlags(q.flags, q.headerState)
  {
    hide CaseOf, Passes, Read, ValueFlags, ValueStartCase;
    var l := Line(v, [CR, LF]);
    FirstLine(p, [], l);
    FlatNothing();
    assert [] + (l.text + l.end) + [] == [] + (l.text + l.end);
    FlagsAreSet(Read(ValueStartCase(p, v[0]).p, v[1..]).(state := HeaderValueLws), 65);
  }

  lemma ConnectionMeans(p: Parser, v: seq<byte>)
    requires p.state.HeaderValueDiscardWs? && p.headerState.Connection? && IsText(v) && v != [] && !IsBlank(v[0])
    ensures Passes(p, v).Some?
    ensures var ts := Tokens(v);
            ValueMeans(p, Passes(p, v).value,
                       p.flags.(keepAlive := p.flags.keepAlive || (exists t | t in ts :: IsWord(t, "keep-alive")),
                                close := p.flags.close || (exists t | t in ts :: IsWord(t, "close")),
                                connectionUpgrade := p.flags.connectionUpgrade || (exists t | t in ts :: IsWord(t, "upgrade"))),
                       p.contentLength)
  {
    hide CaseOf, Passes, Read, ValueFlags, IsWord, ValueStartCase, Tokens;
    var l := Line(v, [CR, LF]);
    OtherValue(p, v);
    ConnectionValue(p, [], l, [], 65);
    SettledLine(p, v);
    ReadFrame(ValueStartCase(p, v[0]).p, v[1..]);
  }

  lemma {:induction false} LengthFrame(p: Parser, w: seq<byte>)
    requires p.state.HeaderValueDiscardWs? && p.headerState.ContentLength? && IsLength(w) && Follow(p, w).Some?
    ensures var q := Follow(p, w).value; q == p.(state := HeaderValue, index := 0, contentLength := q.contentLength)
    decreases |w|
  {
    hide CaseOf;
    var n := |w| - 1;
    if n == 0 {
      assert w[..0] == [];
      LengthByteFrame(p, w[0]);
    } else {
      assert w[..n][0] == w[0];
      LengthFrame(p, w[..n]);
      LengthByteFrame(Follow(p, w[..n]).value, w[n]);
    }
  }

  lemma LengthByteFrame(p: Parser, ch: byte)
    requires p.headerState.ContentLength? && (IsNum(ch) || ch == SP) && CaseOf(p, ch).next.Advance?
    requires p.state.HeaderValue? || (p.state.HeaderValueDiscardWs? && IsNum(ch))
    ensures var q := CaseOf(p, ch).p;
            q == p.(state := HeaderValue, index := if p.state.HeaderValue? then p.index else 0, contentLength := q.contentLength)
  {
    LineCases(p, ch);
    if p.state.HeaderValueDiscardWs? {
      DiscardWsCases(p, ch);
    }
    hide CaseOf, ValueNext, AddLengthDigit;
  }

  lemma {:induction false} FollowPasses(p: Parser, w: seq<byte>)
    requires Follow(p, w).Some?
    ensures Passes(p, w) == Follow(p, w)
    decreases |w|
  {
    hide CaseOf;
    if w != [] {
      FollowFirst(p, w);
      FollowPasses(CaseOf(p, w[0]).p, w[1..]);
    }
  }

  lemma LengthMeans(p: Parser, v: seq<byte>)
    requires p.state.HeaderValueDiscardWs? && p.headerState.ContentLength? && IsLength(v) && Decimal(v) < ULLONG_MAX - 5
    ensures Passes(p, v).Some? && ValueMeans(p, Passes(p, v).value, p.flags, Decimal(v))
  {
    ContentLengthValue(p, v);
    LengthFrame(p, v);
    FollowPasses(p, v);
    hide Passes, Follow, Decimal, IsLength;
  }

  // a line, and all of them

  lemma HeaderMeans(p: Parser, q: Parser, h: Header)
    requires q == p.(state := HeaderValueDiscardWs, headerState := q.headerState, index := q.index)
    requires NameKnown(q.headerState, h.name) && GoodHeader(h)
    ensures Passes(q, h.value).Some?
    ensures ValueMeans(q, Passes(q, h.value).value, FlagsWith(p.flags, h), LengthWith(p.contentLength, h))
  {
    hide Passes, IsKeyword, IsWord, Tokens, Decimal, IsLength, IsName, ValueMeans;
    KeywordsDifferInNames(h.name);
    if q.headerState.ContentLength? {
      LengthMeans(q, h.value);
    } else if q.headerState.TransferEncoding? {
      EncodingValue(q, h.value);
    } else if q.headerState.Connection? {
      ConnectionMeans(q, h.value);
    } else {
      PlainValue(q, h.value);
    }
  }

  /** No name is two keywords. */
  lemma KeywordsDifferInNames(w: seq<byte>)
    ensures var c, l, t, u := IsKeyword(w, "connection") || IsKeyword(w, "proxy-connection"),
                              IsKeyword(w, "content-length"), IsKeyword(w, "transfer-encoding"), IsKeyword(w, "upgrade");
            !(c && l) && !(c && t) && !(c && u) && !(l && t) && !(l && u) && !(t && u)
  {
    if IsKeyword(w, "connection") {
      assert IsLetter(w[0], 'c') && IsLetter(w[3], 'n');
    }
    if IsKeyword(w, "proxy-connection") {
      assert IsLetter(w[0], 'p');
    }
    if IsKeyword(w, "content-length") {
      assert IsLetter(w[0], 'c') && IsLetter(w[3], 't');
    }
    if IsKeyword(w, "transfer-encoding") {
      assert IsLetter(w[0], 't');
    }
    if IsKeyword(w, "upgrade") {
      assert IsLetter(w[0], 'u');
    }
  }

  function LineEvents(trace: seq<Event>, h: Header): seq<Event> {
    Emit(Emit(trace, Data(Field, h.name)), Data(Value, h.value))
  }

  /** A header line is reported as its name and its value, and means what it says. */
  lemma HeaderIsHeard(p: Parser, trace: seq<Event>, h: Header) returns (q: Parser)
    requires p.state.HeaderFieldStart? && GoodHeader(h)
    ensures q.state.HeaderValueLws?
    ensures Settle(q) == p.(flags := FlagsWith(p.flags, h), contentLength := LengthWith(p.contentLength, h),
                            headerState := q.headerState, index := q.index)
    ensures Reads(At(p, trace, Closed), HeaderText(h), At(q, LineEvents(trace, h), Closed))
  {
    hide CaseOf, Reads, Passes, NameKnown, FlagsWith, LengthWith, IsName, IsLength, Decimal, ValueFlags;
    var n := NameIsHeard(p, trace, h.name);
    HeaderMeans(p, n, h);
    var t := Emit(trace, Data(Field, h.name));
    PadIsRead(n, t, h.pad);
    ValueIsHeard(n, t, h.value);
    q := Passes(n, h.value).value.(state := HeaderValueLws);
    ReadsAppend(At(n, t, Closed), h.pad, At(n, t, Closed), h.value + [CR, LF], At(q, LineEvents(trace, h), Closed));
    ReadsAppend(At(p, trace, Closed), h.name + [58], At(n, t, Closed), h.pad + (h.value + [CR, LF]),
                At(q, LineEvents(trace, h), Closed));
    assert h.name + [58] + (h.pad + (h.value + [CR, LF])) == HeaderText(h);
  }

  /** Behind a complete line the next byte is read as if the line had been settled. */
  lemma SettledReads(p: Parser, trace: seq<Event>, w: seq<byte>, n: Machine)
    requires p.state.HeaderValueLws? && w != [] && !IsBlank(w[0]) && Reads(At(Settle(p), trace, Closed), w, n)
    ensures Reads(At(p, trace, Closed), w, n)
  {
    hide CaseOf, Reads;
    var m := FirstByteOf(At(Settle(p), trace, Closed), w, n);
    LineCases(p, w[0]);
    ReadsOn(p, trace, w[0], Case(Settle(p), Reexec), m);
    ReadsAppend(At(p, trace, Closed), [w[0]], m, w[1..], n);
    assert [w[0]] + w[1..] == w;
  }

  lemma FirstByteOf(m: Machine, w: seq<byte>, n: Machine) returns (o: Machine)
    requires w != [] && Reads(m, w, n)
    ensures Reads(m, [w[0]], o) && Reads(o, w[1..], n)
  {
    hide Step;
    o := Step(HttpSplit.Willing(), m, w[0]).0;
    ReadsOne(m, w[0], o);
  }

  function HeadersText(hs: seq<Header>): seq<byte> {
    if hs == [] then [] else HeaderText(hs[0]) + HeadersText(hs[1..])
  }

  function HeadersEvents(trace: seq<Event>, hs: seq<Header>): seq<Event>
    decreases |hs|
  {
    if hs == [] then trace else HeadersEvents(LineEvents(trace, hs[0]), hs[1..])
  }

  /** What all headers say together: the last length counts. */
  function FlagsOf(f: Flags, hs: seq<Header>): Flags
    decreases |hs|
  {
    if hs == [] then f else FlagsOf(FlagsWith(f, hs[0]), hs[1..])
  }

  function LengthOf(n: nat, hs: seq<Header>): nat
    requires forall i | 0 <= i < |hs| :: GoodHeader(hs[i])
    decreases |hs|
  {
    if hs == [] then n else LengthOf(LengthWith(n, hs[0]), hs[1..])
  }

  /** Header lines: q is where the last one leaves the parser, settled or not. */
  lemma {:induction false} HeadersAreHeard(p: Parser, trace: seq<Event>, hs: seq<Header>) returns (q: Parser)
    requires p.state.HeaderFieldStart? && forall i | 0 <= i < |hs| :: GoodHeader(hs[i])
    ensures Settle(q) == p.(flags := FlagsOf(p.flags, hs), contentLength := LengthOf(p.contentLength, hs),
                            headerState := q.headerState, index := q.index)
    ensures Reads(At(p, trace, Closed), HeadersText(hs), At(q, HeadersEvents(trace, hs), Closed))
    decreases |hs|
  {
    hide Reads, FlagsWith, LengthWith, GoodHeader, Settle, LineEvents, HeaderText;
    if hs == [] {
      q := p;
      StaysSettled(p);
      ReadsNothing(At(p, trace, Closed));
    } else {
      var t := LineEvents(trace, hs[0]);
      var r := HeaderIsHeard(p, trace, hs[0]);
      if |hs| == 1 {
        q := r;
        assert hs[1..] == [] && HeadersText(hs) == HeaderText(hs[0]);
      } else {
        StaysSettled(r);
        q := HeadersAreHeard(Settle(r), t, hs[1..]);
        HeadersBegin(hs[1..]);
        SettledReads(r, t, HeadersText(hs[1..]), At(q, HeadersEvents(t, hs[1..]), Closed));
        ReadsAppend(At(p, trace, Closed), HeaderText(hs[0]), At(r, t, Closed), HeadersText(hs[1..]),
                    At(q, HeadersEvents(trace, hs), Closed));
      }
    }
  }

  lemma StaysSettled(p: Parser)
    ensures p.state.HeaderValueLws? ==> Settle(p).state.HeaderFieldStart?
    ensures !p.state.HeaderValueLws? ==> Settle(p) == p
  {
  }

  /** Behind headers comes what begins with no white space. */
  lemma BehindHeaders(p: Parser, q: Parser, trace: seq<Event>, text: seq<byte>, t: seq<Event>, w: seq<byte>, n: Machine)
    requires Reads(At(p, trace, Closed), text, At(q, t, Closed)) && w != [] && !IsBlank(w[0])
    requires Reads(At(Settle(q), t, Closed), w, n)
    ensures Reads(At(p, trace, Closed), text + w, n)
  {
    hide Reads, Settle;
    StaysSettled(q);
    if q.state.HeaderValueLws? {
      SettledReads(q, t, w, n);
    }
    ReadsAppend(At(p, trace, Closed), text, At(q, t, Closed), w, n);
  }

  lemma HeadersBegin(hs: seq<Header>)
    requires hs != [] && GoodHeader(hs[0])
    ensures var text := HeadersText(hs); text != [] && !IsBlank(text[0])
  {
    NoBlankName(hs[0]);
    assert HeadersText(hs)[0] == hs[0].name[0];
    hide GoodHeader, IsBlank;
  }

  lemma NoBlankName(h: Header)
    requires GoodHeader(h)
    ensures h.name != [] && !IsBlank(h.name[0])
  {
    NameBytes(h.name[0]);
    assert Token(9) == 0;
    hide IsKeyword, IsTokenByte, Decimal;
  }
}
