/** The first line of a message, written down, is read as what it is. */
module HttpFirstLines {
  import opened Common
  import opened HttpTypes
  import opened HttpCases
  import opened HttpMachine
  import opened HttpReads
  import opened HttpKeywords
  import opened HttpLines
  import HttpUrl

  // ---------- the method ----------

  /** While the letters of a method are read nothing is reported. */
  lemma {:induction false} MethodIsRead(p: Parser, trace: seq<Event>, w: seq<byte>)
    requires p.state.ReqMethod? && SP !in w && Follow(p, w).Some?
    ensures var q := Follow(p, w).value;
            q.state.ReqMethod? && q == p.(verb := q.verb, index := q.index) && Reads(At(p, trace, Closed), w, At(q, trace, Closed))
    decreases |w|
  {
    hide CaseOf, Reads;
    if w == [] {
      ReadsNothing(At(p, trace, Closed));
    } else {
      var n := |w| - 1;
      assert w == w[..n] + [w[n]];
      MethodIsRead(p, trace, w[..n]);
      var q := Follow(p, w[..n]).value;
      MethodByte(q, w[n]);
      ReadsPlain(q, trace, Closed, w[n], CaseOf(q, w[n]).p);
      ReadsAppend(At(p, trace, Closed), w[..n], At(q, trace, Closed), [w[n]], At(CaseOf(q, w[n]).p, trace, Closed));
    }
  }

  lemma MethodByte(p: Parser, ch: byte)
    requires p.state.ReqMethod? && ch != SP && CaseOf(p, ch).next.Advance?
    ensures var k := CaseOf(p, ch); k == Case(k.p, Advance) && k.p == p.(verb := k.p.verb, index := k.p.index)
  {
    hide OtherMethod, MethodString, CharAt;
  }

  lemma MethodFirst(p: Parser, ch: byte)
    requires p.state.StartReq? && ch != CR && ch != LF && CaseOf(p, ch).next.Advance?
    ensures var k := CaseOf(p, ch);
            && k == Case(k.p, Advance, fire := Fire(MessageBegin, true)) && k.p.state.ReqMethod?
            && k.p == p.(flags := NO_FLAGS, contentLength := ULLONG_MAX, verb := k.p.verb, index := k.p.index, state := ReqMethod)
  {
    hide FirstMethod;
  }

  lemma MethodLast(p: Parser)
    requires p.state.ReqMethod? && CaseOf(p, SP).next.Advance?
    ensures CaseOf(p, SP) == Case(p.(index := CaseOf(p, SP).p.index, state := ReqSpacesBeforeUrl), Advance)
              || CaseOf(p, SP).p.state.ReqMethod?
  {
    hide OtherMethod, MethodString, CharAt;
  }

  /** The parser once it has read the method and the space behind it. */
  function AfterMethod(p: Parser, m: Method, index: nat): Parser {
    p.(flags := NO_FLAGS, contentLength := ULLONG_MAX, verb := m, index := index, state := ReqSpacesBeforeUrl)
  }

  /** A method, and a space. */
  lemma MethodIsHeard(p: Parser, trace: seq<Event>, w: seq<byte>, m: Method) returns (begun: Parser, index: nat)
    requires p.state.StartReq? && Spells(w, MethodString(m)) && w != [] && SP !in w && w[0] != CR && w[0] != LF
    ensures Reads(At(p, trace, Closed), w + [SP], At(AfterMethod(p, m, index), trace + [Notify(MessageBegin, begun)], Closed))
  {
    MethodRecognition(p, w, m);
    hide CaseOf, Reads, MethodString, Spells;
    var r := Follow(p, w + [SP]).value;
    FollowSnoc(p, w, SP);
    var q := Follow(p, w).value;
    assert w == [w[0]] + w[1..];
    FollowFirst(p, w);
    var k := CaseOf(p, w[0]);
    MethodFirst(p, w[0]);
    begun := k.p;
    var t := trace + [Notify(MessageBegin, begun)];
    ReadsFire(p, trace, w[0], k);
    MethodIsRead(begun, t, w[1..]);
    ReadsAppend(At(p, trace, Closed), [w[0]], At(begun, t, Closed), w[1..], At(q, t, Closed));
    MethodLast(q);
    index := r.index;
    ReadsPlain(q, t, Closed, SP, r);
    ReadsAppend(At(p, trace, Closed), w, At(q, t, Closed), [SP], At(r, t, Closed));
  }

  /** Follow from the front. */
  lemma {:induction false} FollowFirst(p: Parser, w: seq<byte>)
    requires w != [] && Follow(p, w).Some?
    ensures CaseOf(p, w[0]).next.Advance? && Follow(CaseOf(p, w[0]).p, w[1..]) == Follow(p, w)
    decreases |w|
  {
    hide CaseOf;
    var n := |w| - 1;
    if n > 0 {
      FollowFirst(p, w[..n]);
      assert w[..n][1..] == w[1..][..n-1] && w[1..][n-1] == w[n];
    } else {
      assert w[..0] == [] && w[1..] == [];
    }
  }

  // ---------- the URL ----------

  /** The states that a URL goes through. */
  lemma {:induction false} UrlIsRead(p: Parser, trace: seq<Event>, x: seq<byte>, n: nat)
    requires p.state.ReqSpacesBeforeUrl? && 0 < n <= |x| && HttpUrl.Alive(x, p.verb.CONNECT?, |x|)
    ensures var s := HttpUrl.After(x, p.verb.CONNECT?, n - 1);
            Reads(At(p, trace, Closed), x[..n], At(p.(state := s), trace, Open(Url, x[..n])))
    decreases n
  {
    hide CaseOf, Reads, UrlNext;
    var connect := p.verb.CONNECT?;
    assert !HttpUrl.After(x, connect, n - 1).Dead?;
    HttpUrl.NextState(x, connect, n - 1);
    var s := HttpUrl.After(x, connect, n - 1);
    hide HttpUrl.After;
    if n == 1 {
      FirstUrlByte(p, x[0]);
      assert x[..1] == [x[0]];
      ReadsMark(p, trace, x[0], p.(state := s), Url);
    } else {
      UrlIsRead(p, trace, x, n - 1);
      var before := p.(state := HttpUrl.After(x, connect, n - 2));
      assert !before.state.Dead? && !s.Dead?;
      HttpUrl.AfterInUrl(x, connect, n - 2);
      UrlByteGoesOn(before, x[n-1]);
      assert x[..n] == x[..n-1] + [x[n-1]];
      ReadsPlain(before, trace, Open(Url, x[..n-1]), x[n-1], p.(state := s));
      ReadsAppend(At(p, trace, Closed), x[..n-1], At(before, trace, Open(Url, x[..n-1])), [x[n-1]],
                  At(p.(state := s), trace, Open(Url, x[..n])));
    }
  }

  lemma FirstUrlByte(p: Parser, ch: byte)
    requires p.state.ReqSpacesBeforeUrl? && !UrlNext(HttpUrl.StartOf(p.verb.CONNECT?), ch).Dead?
    ensures CaseOf(p, ch) ==
              Case(p.(state := UrlNext(HttpUrl.StartOf(p.verb.CONNECT?), ch)), Advance, mark := Some(Url))
  {
    SpaceIsDead(HttpUrl.StartOf(p.verb.CONNECT?), ch);
    hide UrlNext;
  }

  lemma SpaceIsDead(s: State, ch: byte)
    ensures ch == SP || ch == CR || ch == LF ==> UrlNext(s, ch).Dead?
  {
  }

  lemma UrlByteGoesOn(p: Parser, ch: byte)
    requires InUrl(p.state) && !UrlNext(p.state, ch).Dead?
    ensures CaseOf(p, ch) == Case(p.(state := UrlNext(p.state, ch)), Advance)
  {
    SpaceIsDead(p.state, ch);
    hide UrlNext;
  }

  /** The states in which a URL may end. */
  predicate MayEnd(s: State) {
    s.ReqServer? || s.ReqServerWithAt? || s.ReqPath? || s.ReqQueryStringStart? || s.ReqQueryString? ||
    s.ReqFragmentStart? || s.ReqFragment?
  }

  lemma UrlEnds(p: Parser)
    requires MayEnd(p.state)
    ensures CaseOf(p, SP) == Case(p.(state := ReqHttpStart), Advance, close := CloseBefore(Url))
  {
  }

  /** A URL that the parser of URLs takes, and a space. */
  lemma UrlIsHeard(p: Parser, trace: seq<Event>, x: seq<byte>)
    requires p.state.ReqSpacesBeforeUrl? && x != [] && HttpUrl.Alive(x, p.verb.CONNECT?, |x|)
    requires MayEnd(HttpUrl.After(x, p.verb.CONNECT?, |x| - 1))
    ensures Reads(At(p, trace, Closed), x + [SP], At(p.(state := ReqHttpStart), Emit(trace, Data(Url, x)), Closed))
  {
    hide CaseOf, Reads, HttpUrl.Alive, HttpUrl.After, MayEnd;
    UrlIsRead(p, trace, x, |x|);
    assert x[..|x|] == x;
    var q := p.(state := HttpUrl.After(x, p.verb.CONNECT?, |x| - 1));
    UrlEnds(q);
    ReadsClose(q, trace, x, SP, p.(state := ReqHttpStart), Url);
    ReadsAppend(At(p, trace, Closed), x, At(q, trace, Open(Url, x)), [SP],
                At(p.(state := ReqHttpStart), Emit(trace, Data(Url, x)), Closed));
  }

  // ---------- numbers ----------

  predicate BeginsNumber(s: State) {
    s.ReqFirstHttpMajor? || s.ResFirstHttpMajor? || s.ReqFirstHttpMinor? || s.ResFirstHttpMinor? || s.ResFirstStatusCode?
  }

  predicate InNumber(s: State) {
    s.ReqHttpMajor? || s.ResHttpMajor? || s.ReqHttpMinor? || s.ResHttpMinor? || s.ResStatusCode?
  }

  /** The state behind the first digit. */
  function NumberState(s: State): State
    requires BeginsNumber(s)
  {
    if s.ReqFirstHttpMajor? then ReqHttpMajor
    else if s.ResFirstHttpMajor? then ResHttpMajor
    else if s.ReqFirstHttpMinor? then ReqHttpMinor
    else if s.ResFirstHttpMinor? then ResHttpMinor
    else ResStatusCode
  }

  /** The field that holds the number. */
  function NumberOf(p: Parser): nat
    requires InNumber(p.state)
  {
    if p.state.ReqHttpMajor? || p.state.ResHttpMajor? then p.major
    else if p.state.ReqHttpMinor? || p.state.ResHttpMinor? then p.minor
    else p.statusCode
  }

  function WithNumber(p: Parser, v: nat): Parser
    requires InNumber(p.state)
  {
    if p.state.ReqHttpMajor? || p.state.ResHttpMajor? then p.(major := v)
    else if p.state.ReqHttpMinor? || p.state.ResHttpMinor? then p.(minor := v)
    else p.(statusCode := v)
  }

  predicate AreDigits(ds: seq<byte>) { ds != [] && forall i | 0 <= i < |ds| :: 48 <= ds[i] <= 57 }

  /** The number that digits spell. */
  function Spelled(ds: seq<byte>): nat
    requires forall i | 0 <= i < |ds| :: 48 <= ds[i] <= 57
  {
    if ds == [] then 0
    else
      var last: int := ds[|ds|-1];
      10 * Spelled(ds[..|ds|-1]) + (last - 48)
  }

  lemma FirstDigit(p: Parser, ch: byte)
    requires BeginsNumber(p.state) && 48 <= ch <= 57 && (p.state.ReqFirstHttpMajor? ==> ch != 48)
    ensures InNumber(NumberState(p.state))
    ensures CaseOf(p, ch) == Case(WithNumber(p.(state := NumberState(p.state)), ch - 48), Advance)
  {
  }

  lemma NextDigit(p: Parser, ch: byte)
    requires InNumber(p.state) && 48 <= ch <= 57 && 10 * NumberOf(p) + (ch - 48) <= 999
    ensures CaseOf(p, ch) == Case(WithNumber(p, 10 * NumberOf(p) + (ch - 48)), Advance)
  {
  }

  /** A number of up to 999 is read as what its digits spell. */
  lemma {:induction false} NumberIsRead(p: Parser, trace: seq<Event>, ds: seq<byte>)
    requires BeginsNumber(p.state) && AreDigits(ds) && Spelled(ds) <= 999 && (p.state.ReqFirstHttpMajor? ==> ds[0] != 48)
    ensures InNumber(NumberState(p.state))
    ensures Reads(At(p, trace, Closed), ds, At(WithNumber(p.(state := NumberState(p.state)), Spelled(ds)), trace, Closed))
    decreases |ds|
  {
    hide CaseOf, Reads;
    var n, q := |ds| - 1, p.(state := NumberState(p.state));
    assert ds == ds[..n] + [ds[n]];
    if n == 0 {
      FirstDigit(p, ds[0]);
      assert Spelled(ds[..0]) == 0;
      ReadsPlain(p, trace, Closed, ds[0], WithNumber(q, Spelled(ds)));
    } else {
      NumberIsRead(p, trace, ds[..n]);
      var r := WithNumber(q, Spelled(ds[..n]));
      NextDigit(r, ds[n]);
      ReadsPlain(r, trace, Closed, ds[n], WithNumber(q, Spelled(ds)));
      ReadsAppend(At(p, trace, Closed), ds[..n], At(r, trace, Closed), [ds[n]], At(WithNumber(q, Spelled(ds)), trace, Closed));
    }
  }

  // ---------- the first line ----------

  const HTTP: seq<byte> := [72, 84, 84, 80, 47]

  /** A version: digits, a dot, digits. */
  datatype Version = Version(major: seq<byte>, minor: seq<byte>)

  predicate GoodVersion(v: Version) {
    AreDigits(v.major) && AreDigits(v.minor) && v.major[0] != 48 && Spelled(v.major) <= 999 && Spelled(v.minor) <= 999
  }

  function VersionText(v: Version): seq<byte> { HTTP + (v.major + ([46] + v.minor)) }

  /** Two plain bytes, or more of them, one after the other. */
  lemma PlainTwice(p: Parser, trace: seq<Event>, a: byte, q: Parser, b: byte, r: Parser)
    requires CaseOf(p, a) == Case(q, Advance) && CaseOf(q, b) == Case(r, Advance)
    ensures Reads(At(p, trace, Closed), [a, b], At(r, trace, Closed))
  {
    hide CaseOf, Reads;
    ReadsPlain(p, trace, Closed, a, q);
    ReadsPlain(q, trace, Closed, b, r);
    ReadsAppend(At(p, trace, Closed), [a], At(q, trace, Closed), [b], At(r, trace, Closed));
    assert [a] + [b] == [a, b];
  }

  lemma HttpCasesReq(p: Parser)
    ensures p.state.ReqHttpStart? ==> CaseOf(p, 72) == Case(p.(state := ReqHttpH), Advance)
    ensures p.state.ReqHttpH? ==> CaseOf(p, 84) == Case(p.(state := ReqHttpHT), Advance)
    ensures p.state.ReqHttpHT? ==> CaseOf(p, 84) == Case(p.(state := ReqHttpHTT), Advance)
    ensures p.state.ReqHttpHTT? ==> CaseOf(p, 80) == Case(p.(state := ReqHttpHTTP), Advance)
    ensures p.state.ReqHttpHTTP? ==> CaseOf(p, 47) == Case(p.(state := ReqFirstHttpMajor), Advance)
    ensures p.state.ReqHttpMajor? ==> CaseOf(p, 46) == Case(p.(state := ReqFirstHttpMinor), Advance)
    ensures p.state.ReqHttpMinor? ==> CaseOf(p, CR) == Case(p.(state := ReqLineAlmostDone), Advance)
    ensures p.state.ReqLineAlmostDone? ==> CaseOf(p, LF) == Case(p.(state := HeaderFieldStart), Advance)
  {
  }

  lemma HttpIsRead(p: Parser, trace: seq<Event>)
    requires p.state.ReqHttpStart?
    ensures Reads(At(p, trace, Closed), HTTP, At(p.(state := ReqFirstHttpMajor), trace, Closed))
  {
    hide CaseOf, Reads;
    HttpCasesReq(p);
    HttpCasesReq(p.(state := ReqHttpH));
    HttpCasesReq(p.(state := ReqHttpHT));
    HttpCasesReq(p.(state := ReqHttpHTT));
    HttpCasesReq(p.(state := ReqHttpHTTP));
    PlainTwice(p, trace, 72, p.(state := ReqHttpH), 84, p.(state := ReqHttpHT));
    PlainTwice(p.(state := ReqHttpHT), trace, 84, p.(state := ReqHttpHTT), 80, p.(state := ReqHttpHTTP));
    ReadsPlain(p.(state := ReqHttpHTTP), trace, Closed, 47, p.(state := ReqFirstHttpMajor));
    ReadsAppend(At(p, trace, Closed), [72, 84], At(p.(state := ReqHttpHT), trace, Closed), [84, 80],
                At(p.(state := ReqHttpHTTP), trace, Closed));
    ReadsAppend(At(p, trace, Closed), [72, 84] + [84, 80], At(p.(state := ReqHttpHTTP), trace, Closed), [47],
                At(p.(state := ReqFirstHttpMajor), trace, Closed));
    assert [72, 84] + [84, 80] + [47] == HTTP;
  }

  /** The version at the end of a request line. */
  lemma ReqVersionIsRead(p: Parser, trace: seq<Event>, v: Version)
    requires p.state.ReqHttpStart? && GoodVersion(v)
    ensures Reads(At(p, trace, Closed), VersionText(v) + [CR, LF],
                  At(p.(major := Spelled(v.major), minor := Spelled(v.minor), state := HeaderFieldStart), trace, Closed))
  {
    hide CaseOf, Reads, Spelled;
    var p1 := p.(state := ReqFirstHttpMajor);
    var p2 := p.(major := Spelled(v.major), state := ReqHttpMajor);
    var p3 := p2.(state := ReqFirstHttpMinor);
    var p4 := p2.(minor := Spelled(v.minor), state := ReqHttpMinor);
    HttpIsRead(p, trace);
    NumberIsRead(p1, trace, v.major);
    HttpCasesReq(p2);
    ReadsPlain(p2, trace, Closed, 46, p3);
    NumberIsRead(p3, trace, v.minor);
    HttpCasesReq(p4);
    HttpCasesReq(p4.(state := ReqLineAlmostDone));
    PlainTwice(p4, trace, CR, p4.(state := ReqLineAlmostDone), LF, p4.(state := HeaderFieldStart));
    ReadsAppend(At(p3, trace, Closed), v.minor, At(p4, trace, Closed), [CR, LF], At(p4.(state := HeaderFieldStart), trace, Closed));
    ReadsAppend(At(p2, trace, Closed), [46], At(p3, trace, Closed), v.minor + [CR, LF], At(p4.(state := HeaderFieldStart), trace, Closed));
    ReadsAppend(At(p1, trace, Closed), v.major, At(p2, trace, Closed), [46] + (v.minor + [CR, LF]),
                At(p4.(state := HeaderFieldStart), trace, Closed));
    ReadsAppend(At(p, trace, Closed), HTTP, At(p1, trace, Closed), v.major + ([46] + (v.minor + [CR, LF])),
                At(p4.(state := HeaderFieldStart), trace, Closed));
    assert HTTP + (v.major + ([46] + (v.minor + [CR, LF]))) == VersionText(v) + [CR, LF];
  }

  // ---------- the status line ----------

  lemma HttpCasesRes(p: Parser)
    ensures p.state.ResH? ==> CaseOf(p, 84) == Case(p.(state := ResHT), Advance)
    ensures p.state.ResHT? ==> CaseOf(p, 84) == Case(p.(state := ResHTT), Advance)
    ensures p.state.ResHTT? ==> CaseOf(p, 80) == Case(p.(state := ResHTTP), Advance)
    ensures p.state.ResHTTP? ==> CaseOf(p, 47) == Case(p.(state := ResFirstHttpMajor), Advance)
    ensures p.state.ResHttpMajor? ==> CaseOf(p, 46) == Case(p.(state := ResFirstHttpMinor), Advance)
    ensures p.state.ResHttpMinor? ==> CaseOf(p, SP) == Case(p.(state := ResFirstStatusCode), Advance)
    ensures p.state.ResStatusCode? ==> CaseOf(p, SP) == Case(p.(state := ResStatusStart), Advance)
    ensures p.state.ResStatusStart? ==> CaseOf(p, CR) == Case(p.(state := ResLineAlmostDone), Advance)
    ensures p.state.ResLineAlmostDone? ==> CaseOf(p, LF) == Case(p.(state := HeaderFieldStart), Advance)
  {
  }

  lemma StatusCases(p: Parser, ch: byte)
    requires ch != CR && ch != LF
    ensures p.state.ResStatusStart? ==>
              CaseOf(p, ch) == Case(p.(state := ResStatus, index := 0), Advance, mark := Some(Status))
    ensures p.state.ResStatus? ==> CaseOf(p, ch) == Case(p, Advance)
  {
  }

  lemma StatusEnds(p: Parser)
    ensures p.state.ResStatus? ==>
              CaseOf(p, CR) == Case(p.(state := ResLineAlmostDone), Advance, close := CloseBefore(Status))
    ensures p.state.StartRes? ==>
              var q := p.(flags := NO_FLAGS, contentLength := ULLONG_MAX, state := ResH);
              CaseOf(p, 72) == Case(q, Advance, fire := Fire(MessageBegin, true))
  {
  }

  /** The phrase behind the status code. */
  lemma {:induction false} PhraseIsRead(p: Parser, trace: seq<Event>, bytes: seq<byte>, w: seq<byte>)
    requires p.state.ResStatus? && IsText(w)
    ensures Reads(At(p, trace, Open(Status, bytes)), w, At(p, trace, Open(Status, bytes + w)))
    decreases |w|
  {
    hide CaseOf, Reads;
    if w == [] {
      ReadsNothing(At(p, trace, Open(Status, bytes)));
      assert bytes + w == bytes;
    } else {
      StatusCases(p, w[0]);
      ReadsPlain(p, trace, Open(Status, bytes), w[0], p);
      PhraseIsRead(p, trace, bytes + [w[0]], w[1..]);
      ReadsAppend(At(p, trace, Open(Status, bytes)), [w[0]], At(p, trace, Open(Status, bytes + [w[0]])), w[1..],
                  At(p, trace, Open(Status, bytes + [w[0]] + w[1..])));
      assert [w[0]] + w[1..] == w && bytes + [w[0]] + w[1..] == bytes + w;
    }
  }

  /** A phrase, or none, and the end of the line. */
  lemma PhraseIsHeard(p: Parser, trace: seq<Event>, w: seq<byte>)
    requires p.state.ResStatusStart? && IsText(w)
    ensures var q := p.(state := HeaderFieldStart, index := if w == [] then p.index else 0);
            Reads(At(p, trace, Closed), w + [CR, LF], At(q, if w == [] then trace else Emit(trace, Data(Status, w)), Closed))
  {
    hide CaseOf, Reads;
    if w == [] {
      HttpCasesRes(p);
      HttpCasesRes(p.(state := ResLineAlmostDone));
      PlainTwice(p, trace, CR, p.(state := ResLineAlmostDone), LF, p.(state := HeaderFieldStart));
      assert w + [CR, LF] == [CR, LF];
    } else {
      var q, t := p.(state := ResStatus, index := 0), Emit(trace, Data(Status, w));
      StatusCases(p, w[0]);
      ReadsMark(p, trace, w[0], q, Status);
      PhraseIsRead(q, trace, [w[0]], w[1..]);
      assert [w[0]] + w[1..] == w;
      ReadsAppend(At(p, trace, Closed), [w[0]], At(q, trace, Open(Status, [w[0]])), w[1..], At(q, trace, Open(Status, w)));
      StatusEnds(q);
      ReadsClose(q, trace, w, CR, q.(state := ResLineAlmostDone), Status);
      HttpCasesRes(q.(state := ResLineAlmostDone));
      ReadsPlain(q.(state := ResLineAlmostDone), t, Closed, LF, q.(state := HeaderFieldStart));
      ReadsAppend(At(p, trace, Closed), w, At(q, trace, Open(Status, w)), [CR], At(q.(state := ResLineAlmostDone), t, Closed));
      ReadsAppend(At(p, trace, Closed), w + [CR], At(q.(state := ResLineAlmostDone), t, Closed), [LF],
                  At(q.(state := HeaderFieldStart), t, Closed));
      assert w + [CR] + [LF] == w + [CR, LF];
    }
  }

  predicate GoodResVersion(v: Version) {
    AreDigits(v.major) && AreDigits(v.minor) && Spelled(v.major) <= 999 && Spelled(v.minor) <= 999
  }

  lemma ResHttpIsRead(p: Parser, trace: seq<Event>) returns (begun: Parser)
    requires p.state.StartRes?
    ensures begun == p.(flags := NO_FLAGS, contentLength := ULLONG_MAX, state := ResH)
    ensures Reads(At(p, trace, Closed), HTTP,
                  At(begun.(state := ResFirstHttpMajor), trace + [Notify(MessageBegin, begun)], Closed))
  {
    hide CaseOf, Reads;
    begun := p.(flags := NO_FLAGS, contentLength := ULLONG_MAX, state := ResH);
    var t := trace + [Notify(MessageBegin, begun)];
    StatusEnds(p);
    ReadsFire(p, trace, 72, CaseOf(p, 72));
    HttpCasesRes(begun);
    HttpCasesRes(begun.(state := ResHT));
    HttpCasesRes(begun.(state := ResHTT));
    HttpCasesRes(begun.(state := ResHTTP));
    PlainTwice(begun, t, 84, begun.(state := ResHT), 84, begun.(state := ResHTT));
    PlainTwice(begun.(state := ResHTT), t, 80, begun.(state := ResHTTP), 47, begun.(state := ResFirstHttpMajor));
    ReadsAppend(At(p, trace, Closed), [72], At(begun, t, Closed), [84, 84], At(begun.(state := ResHTT), t, Closed));
    ReadsAppend(At(p, trace, Closed), [72] + [84, 84], At(begun.(state := ResHTT), t, Closed), [80, 47],
                At(begun.(state := ResFirstHttpMajor), t, Closed));
    assert [72] + [84, 84] + [80, 47] == HTTP;
  }

  /** The version and the status code, from HTTP/ to the space behind the code. */
  lemma ResNumbersAreRead(p: Parser, trace: seq<Event>, v: Version, code: seq<byte>)
    requires p.state.ResFirstHttpMajor? && GoodResVersion(v) && AreDigits(code) && Spelled(code) <= 999
    ensures Reads(At(p, trace, Closed), v.major + ([46] + (v.minor + ([SP] + (code + [SP])))),
                  At(p.(major := Spelled(v.major), minor := Spelled(v.minor), statusCode := Spelled(code), state := ResStatusStart),
                     trace, Closed))
  {
    hide CaseOf, Reads, Spelled;
    var p1 := p.(major := Spelled(v.major), state := ResHttpMajor);
    var p2 := p1.(state := ResFirstHttpMinor);
    var p3 := p1.(minor := Spelled(v.minor), state := ResHttpMinor);
    var p4 := p3.(state := ResFirstStatusCode);
    var p5 := p3.(statusCode := Spelled(code), state := ResStatusCode);
    var p6 := p5.(state := ResStatusStart);
    NumberIsRead(p, trace, v.major);
    HttpCasesRes(p1);
    ReadsPlain(p1, trace, Closed, 46, p2);
    NumberIsRead(p2, trace, v.minor);
    HttpCasesRes(p3);
    ReadsPlain(p3, trace, Closed, SP, p4);
    NumberIsRead(p4, trace, code);
    HttpCasesRes(p5);
    ReadsPlain(p5, trace, Closed, SP, p6);
    ReadsAppend(At(p4, trace, Closed), code, At(p5, trace, Closed), [SP], At(p6, trace, Closed));
    ReadsAppend(At(p3, trace, Closed), [SP], At(p4, trace, Closed), code + [SP], At(p6, trace, Closed));
    ReadsAppend(At(p2, trace, Closed), v.minor, At(p3, trace, Closed), [SP] + (code + [SP]), At(p6, trace, Closed));
    ReadsAppend(At(p1, trace, Closed), [46], At(p2, trace, Closed), v.minor + ([SP] + (code + [SP])), At(p6, trace, Closed));
    ReadsAppend(At(p, trace, Closed), v.major, At(p1, trace, Closed), [46] + (v.minor + ([SP] + (code + [SP]))),
                At(p6, trace, Closed));
  }
}
