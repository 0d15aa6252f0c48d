/** What else the parser reads: lines that end with LF alone, values that are empty or go on in
    further lines, protocols that are switched, and messages of a kind that is not known before. */
module HttpVariants {
  import opened Common
  import opened HttpTypes
  import opened HttpCases
  import opened HttpMachine
  import opened HttpSplit
  import opened HttpCounting
  import opened HttpReads
  import opened HttpFirstLines
  import opened HttpKeywords
  import opened HttpLines
  import HttpMessages
  import HttpBodies

  // ---------- LF alone ----------

  /** The states in which a line may end. */
  predicate EndsLine(s: State) {
    s.ReqHttpMinor? || s.ResStatusCode? || s.ResStatusStart? || s.ResStatus? || s.HeaderFieldStart? || s.HeaderValue? ||
    s.HeaderValueDiscardWs? || MayEnd(s)
  }

  /** From m the bytes CR and LF lead where LF alone does. */
  ghost predicate LineEndsAlike(policy: Policy, m: Machine) {
    var (a, first) := Step(policy, m, CR);
    var (b, outcome) := Step(policy, a, LF);
    var (c, other) := Step(policy, m, LF);
    first.Running? && outcome == other && b.(nread := 0) == c.(nread := 0)
  }

  lemma PlainEnds(policy: Policy, m: Machine, p: Parser, q: Parser, c: Closing)
    requires CaseOf(m.p, CR) == Case(p, Advance, close := c) && CaseOf(p, LF) == Case(q, Advance)
    requires CaseOf(m.p, LF) == Case(q, Advance, close := c)
    requires m.open.Open? ==> c == CloseBefore(m.open.kind)
    ensures LineEndsAlike(policy, m)
  {
    hide CaseOf, Emit;
  }

  lemma UrlEndsAlike(policy: Policy, m: Machine)
    requires MayEnd(m.p.state) && (m.open.Open? ==> m.open.kind == Url)
    ensures LineEndsAlike(policy, m)
  {
    var p := m.p.(major := 0, minor := 9, state := ReqLineAlmostDone);
    UrlLineEnds(m.p);
    OnlyThenLineFeed(p);
    PlainEnds(policy, m, p, p.(state := HeaderFieldStart), CloseBefore(Url));
    hide CaseOf, LineEndsAlike;
  }

  lemma UrlLineEnds(p: Parser)
    requires MayEnd(p.state)
    ensures CaseOf(p, CR) == Case(p.(major := 0, minor := 9, state := ReqLineAlmostDone), Advance, close := CloseBefore(Url))
    ensures CaseOf(p, LF) == Case(p.(major := 0, minor := 9, state := HeaderFieldStart), Advance, close := CloseBefore(Url))
  {
  }

  lemma OnlyThenLineFeed(p: Parser)
    ensures p.state.ReqLineAlmostDone? || p.state.ResLineAlmostDone? ==> CaseOf(p, LF) == Case(p.(state := HeaderFieldStart), Advance)
    ensures p.state.HeaderValueDiscardWsAlmostDone? ==> CaseOf(p, LF) == Case(p.(state := HeaderValueDiscardLws), Advance)
  {
  }

  lemma OtherLineEnds(p: Parser)
    ensures p.state.ReqHttpMinor? ==>
              && CaseOf(p, CR) == Case(p.(state := ReqLineAlmostDone), Advance)
              && CaseOf(p, LF) == Case(p.(state := HeaderFieldStart), Advance)
    ensures p.state.ResStatusCode? || p.state.ResStatusStart? ==>
              && CaseOf(p, CR) == Case(p.(state := ResLineAlmostDone), Advance)
              && CaseOf(p, LF) == Case(p.(state := HeaderFieldStart), Advance)
    ensures p.state.ResStatus? ==>
              && CaseOf(p, CR) == Case(p.(state := ResLineAlmostDone), Advance, close := CloseBefore(Status))
              && CaseOf(p, LF) == Case(p.(state := HeaderFieldStart), Advance, close := CloseBefore(Status))
    ensures p.state.HeaderValueDiscardWs? ==>
              && CaseOf(p, CR) == Case(p.(state := HeaderValueDiscardWsAlmostDone), Advance)
              && CaseOf(p, LF) == Case(p.(state := HeaderValueDiscardLws), Advance)
  {
  }

  lemma OthersEndAlike(policy: Policy, m: Machine)
    requires m.p.state.ReqHttpMinor? || m.p.state.ResStatusCode? || m.p.state.ResStatusStart? || m.p.state.ResStatus? ||
             m.p.state.HeaderValueDiscardWs?
    requires m.open.Open? ==> m.p.state.ResStatus? && m.open.kind == Status
    ensures LineEndsAlike(policy, m)
  {
    OtherLineEnds(m.p);
    var a, b, c := CaseOf(m.p, CR).p, CaseOf(m.p, LF).p, CaseOf(m.p, CR).close;
    OnlyThenLineFeed(a);
    PlainEnds(policy, m, a, b, c);
    hide CaseOf, LineEndsAlike;
  }

  lemma ValueCases(p: Parser)
    ensures p.state.HeaderValue? ==>
              && CaseOf(p, CR) == Case(p.(state := HeaderAlmostDone), Advance, close := CloseBefore(Value))
              && CaseOf(p, LF) == Case(p.(state := HeaderAlmostDone), Reexec, close := CloseBefore(Value))
    ensures p.state.HeaderAlmostDone? ==> CaseOf(p, LF) == Case(p.(state := HeaderValueLws), Advance)
    ensures p.state.HeaderFieldStart? ==>
              && CaseOf(p, CR) == Case(p.(state := HeadersAlmostDone), Advance)
              && CaseOf(p, LF) == Case(p.(state := HeadersAlmostDone), Reexec)
  {
    hide ValueNext, AddLengthDigit, Token, FieldFirst;
  }

  /** A case that closes the mark, if there is one. */
  function AfterClose(m: Machine, p: Parser): Machine {
    m.(p := p, trace := if m.open.Open? then Emit(m.trace, Data(m.open.kind, m.open.bytes)) else m.trace, open := Closed)
  }

  lemma ClosingByte(policy: Policy, m: Machine, ch: byte, p: Parser, kind: DataKind)
    requires (m.open.Open? ==> m.open.kind == kind)
    ensures CaseOf(m.p, ch) == Case(p, Advance, close := CloseBefore(kind)) ==> Step(policy, m, ch) == (AfterClose(Count(m), p), Running)
    ensures CaseOf(m.p, ch) == Case(p, Reexec, close := CloseBefore(kind)) ==>
              Switch(policy, m, ch) == Switch(policy, AfterClose(m, p), ch)
  {
    hide CaseOf, Emit;
  }

  lemma PlainByte(policy: Policy, m: Machine, ch: byte, p: Parser)
    requires CaseOf(m.p, ch) == Case(p, Advance) && m.open.Closed?
    ensures Switch(policy, m, ch) == (m.(p := p), Running)
  {
    hide CaseOf, Emit;
  }

  lemma ValueEndsAlike(policy: Policy, m: Machine)
    requires m.p.state.HeaderValue? && (m.open.Open? ==> m.open.kind == Value)
    ensures LineEndsAlike(policy, m)
  {
    var p, q := m.p.(state := HeaderAlmostDone), m.p.(state := HeaderValueLws);
    ValueCases(m.p);
    ValueCases(p);
    var a := AfterClose(Count(m), p);
    ClosingByte(policy, m, CR, p, Value);
    ClosingByte(policy, Count(m), LF, p, Value);
    PlainByte(policy, Count(a), LF, q);
    PlainByte(policy, a, LF, q);
    assert a == AfterClose(Count(m), p);
    hide CaseOf, Emit, Switch, AfterClose;
  }

  lemma BlankEndsAlike(policy: Policy, m: Machine)
    requires m.p.state.HeaderFieldStart? && m.open.Closed?
    ensures LineEndsAlike(policy, m)
  {
    var p := m.p.(state := HeadersAlmostDone);
    ValueCases(m.p);
    var a := Step(policy, m, CR).0;
    var c := Count(m).(p := p);
    assert a == c && Step(policy, m, CR).1.Running? by { hide CaseOf, Emit; }
    assert Switch(policy, Count(m), LF) == Switch(policy, c, LF) by { hide CaseOf, Emit; }
    StepNread(policy, c, LF, m.nread);
    hide CaseOf, Emit, Switch;
  }

  /** LF alone ends a line as CR and LF do: they lead to the same parser, callbacks and outcome. */
  lemma LineFeedAlone(policy: Policy, m: Machine)
    requires EndsLine(m.p.state) && MarksFit(m.p.state, m.open)
    ensures LineEndsAlike(policy, m)
  {
    hide LineEndsAlike;
    if m.open.Open? {
      OpenIs(m);
    }
    if MayEnd(m.p.state) {
      UrlEndsAlike(policy, m);
    } else if m.p.state.HeaderValue? {
      ValueEndsAlike(policy, m);
    } else if m.p.state.HeaderFieldStart? {
      BlankEndsAlike(policy, m);
    } else {
      OthersEndAlike(policy, m);
    }
  }

  lemma OpenIs(m: Machine)
    requires EndsLine(m.p.state) && MarksFit(m.p.state, m.open) && m.open.Open?
    ensures m.open.kind == if MayEnd(m.p.state) then Url else if m.p.state.HeaderValue? then Value else Status
    ensures m.open.kind == Status ==> m.p.state.ResStatus?
  {
  }

  // ---------- values that are empty or go on ----------

  lemma LwsCases(p: Parser, ch: byte)
    ensures p.state.HeaderValueDiscardLws? && !IsBlank(ch) ==>
              CaseOf(p, ch) == Case(p.(flags := ValueFlags(p.flags, p.headerState), state := HeaderFieldStart), Reexec,
                                    mark := Some(Value), close := CloseBefore(Value))
    ensures p.state.HeaderValueLws? && IsBlank(ch) ==> CaseOf(p, ch) == Case(p.(state := HeaderValueStart), Reexec)
    ensures p.state.HeaderValueStart? ==> CaseOf(p, ch) == ValueStartCase(p, ch)
  {
    LineCases(p, ch);
    hide CaseOf, ValueFlags, ValueStartCase;
  }

  lemma EmptyReported(m: Machine, ch: byte, p: Parser)
    requires CaseOf(m.p, ch) == Case(p, Reexec, mark := Some(Value), close := CloseBefore(Value)) && m.open.Closed?
    ensures Switch(Willing(), Count(m), ch) == Switch(Willing(), Count(m).(p := p, trace := Emit(m.trace, Data(Value, []))), ch)
  {
    hide CaseOf, Emit;
  }

  /** An empty value is reported, as one, when the line behind it does not go on; it sets nothing. */
  lemma EmptyValueIsHeard(p: Parser, trace: seq<Event>, ch: byte, n: Machine)
    requires p.state.HeaderValueDiscardWs? && IsFieldState(p.headerState) && !IsBlank(ch)
    requires Reads(At(p.(state := HeaderFieldStart), Emit(trace, Data(Value, [])), Closed), [ch], n)
    ensures Reads(At(p, trace, Closed), [CR, LF] + [ch], n)
  {
    hide CaseOf, Reads, Emit;
    var a, b, q := p.(state := HeaderValueDiscardWsAlmostDone), p.(state := HeaderValueDiscardLws), p.(state := HeaderFieldStart);
    OtherLineEnds(p);
    OnlyThenLineFeed(a);
    PlainTwice(p, trace, CR, a, LF, b);
    LwsCases(b, ch);
    NothingToSet(p.flags, p.headerState);
    var m, o := At(b, trace, Closed), At(q, Emit(trace, Data(Value, [])), Closed);
    EmptyReported(m, ch, q);
    OnlyStep(o, ch, n);
    OnlyStep(m, ch, n);
    assert Count(m).(p := q, trace := o.trace) == Count(o);
    ReadsAppend(At(p, trace, Closed), [CR, LF], m, [ch], n);
    hide Switch;
  }

  lemma NothingToSet(f: Flags, h: HeaderState)
    requires IsFieldState(h)
    ensures ValueFlags(f, h) == f
  {
  }

  lemma FoldBegins(p: Parser, ch: byte)
    requires p.state.HeaderValueLws? && IsBlank(ch) && Through(p, ch).Some?
    ensures var q := Through(p, ch).value;
            q.state.HeaderValue? && ValueStartCase(p.(state := HeaderValueStart), ch) == Case(q, Advance, mark := Some(Value))
  {
    LwsCases(p, ch);
    LwsCases(p.(state := HeaderValueStart), ch);
    hide CaseOf, ConnectionToken, Lower;
  }

  /** A line that begins with white space goes on with the value of the line before: what it holds is
      joined to that value, white space included. */
  lemma FoldIsHeard(p: Parser, trace: seq<Event>, v: seq<byte>, w: seq<byte>)
    requires p.state.HeaderValueLws? && w != [] && IsBlank(w[0]) && IsText(w) && Passes(p, w).Some?
    ensures var q := Passes(p, w).value;
            && q.state.HeaderValue?
            && Reads(At(p, Emit(trace, Data(Value, v)), Closed), w + [CR, LF],
                     At(q.(state := HeaderValueLws), Emit(trace, Data(Value, v + w)), Closed))
  {
    hide CaseOf, Reads, Through, Emit;
    var t := Emit(trace, Data(Value, v));
    var first, q := Through(p, w[0]).value, Passes(p, w).value;
    var start := p.(state := HeaderValueStart);
    FoldBegins(p, w[0]);
    LwsCases(p, w[0]);
    LwsCases(start, w[0]);
    ReadsMark(start, t, w[0], first, Value);
    ReadsOn(p, t, w[0], CaseOf(p, w[0]), At(first, t, Open(Value, [w[0]])));
    HttpMessages.ValueRest(first, t, [w[0]], w[1..]);
    assert [w[0]] + w[1..] == w;
    ReadsAppend(At(p, t, Closed), [w[0]], At(first, t, Open(Value, [w[0]])), w[1..], At(q, t, Open(Value, w)));
    EmitJoins(trace, Value, v, w);
    FoldEnds(q, t, w);
    ReadsAppend(At(p, t, Closed), w, At(q, t, Open(Value, w)), [CR, LF],
                At(q.(state := HeaderValueLws), Emit(trace, Data(Value, v + w)), Closed));
  }

  lemma FoldEnds(q: Parser, t: seq<Event>, w: seq<byte>)
    requires q.state.HeaderValue?
    ensures Reads(At(q, t, Open(Value, w)), [CR, LF], At(q.(state := HeaderValueLws), Emit(t, Data(Value, w)), Closed))
  {
    hide CaseOf, Reads, Emit;
    var a := q.(state := HeaderAlmostDone);
    ValueCases(q);
    ValueCases(a);
    ReadsClose(q, t, w, CR, a, Value);
    ReadsPlain(a, Emit(t, Data(Value, w)), Closed, LF, q.(state := HeaderValueLws));
    ReadsAppend(At(q, t, Open(Value, w)), [CR], At(a, Emit(t, Data(Value, w)), Closed), [LF],
                At(q.(state := HeaderValueLws), Emit(t, Data(Value, w)), Closed));
    assert [CR] + [LF] == [CR, LF];
  }

  // ---------- other protocols ----------

  lemma SwitchedCases(p: Parser, ch: byte)
    requires p.state.HeadersAlmostDone? && !p.flags.trailing && !p.flags.skipBody && !HttpBodies.StaysHttp(p)
    requires p.verb.CONNECT? || (!p.flags.chunked && (p.contentLength == 0 || p.contentLength == ULLONG_MAX))
    ensures var h := p.(state := HeadersDone, upgrade := true);
            && CaseOf(p, ch) == Case(h, Reexec, fire := Fire(HeadersComplete, false))
            && CaseOf(h, ch) == Case(h.(state := StartState(p.typ)), Exit, fire := Fire(MessageComplete, true), resetNread := true)
  {
  }

  /** Where the protocol is switched, after CONNECT or an agreed upgrade, and there is no body, the
      parser stops behind the header: nothing of what follows is read. */
  lemma SwitchedProtocolStops(p: Parser, trace: seq<Event>, rest: seq<byte>)
    requires p.state.HeaderFieldStart? && !p.flags.trailing && !p.flags.skipBody && !HttpBodies.StaysHttp(p)
    requires p.verb.CONNECT? || (!p.flags.chunked && (p.contentLength == 0 || p.contentLength == ULLONG_MAX))
    ensures var h := p.(state := HeadersDone, upgrade := true);
            var q := h.(state := StartState(p.typ));
            Run(Willing(), At(p, trace, Closed), [CR, LF] + rest)
              == RunResult(At(q, trace + [Notify(HeadersComplete, h)] + [Notify(MessageComplete, q)], Closed), Left(true), 2)
  {
    var a := p.(state := HeadersAlmostDone);
    ValueCases(p);
    BlankBegins(p, trace, a);
    SwitchedStep(a, trace, 1);
    var m, n := At(p, trace, Closed), At(a, trace, Closed).(nread := 1);
    hide CaseOf, Step;
    TwoBytesStop(m, n, Step(Willing(), n, LF).0, rest);
  }

  lemma BlankBegins(p: Parser, trace: seq<Event>, a: Parser)
    requires p.state.HeaderFieldStart? && CaseOf(p, CR) == Case(a, Advance)
    ensures Step(Willing(), At(p, trace, Closed), CR) == (At(a, trace, Closed).(nread := 1), Running)
  {
    hide CaseOf, Emit;
  }

  lemma TwoBytesStop(m: Machine, n: Machine, o: Machine, rest: seq<byte>)
    requires Step(Willing(), m, CR) == (n, Running) && Step(Willing(), n, LF) == (o, Left(true))
    ensures Run(Willing(), m, [CR, LF] + rest) == RunResult(o, Left(true), 2)
  {
    hide Step;
    var bytes := [CR, LF] + rest;
    assert bytes[1..] == [LF] + rest && bytes[0] == CR && bytes[1..][0] == LF;
  }

  lemma SwitchedStep(a: Parser, trace: seq<Event>, k: nat)
    requires a.state.HeadersAlmostDone? && !a.flags.trailing && !a.flags.skipBody && !HttpBodies.StaysHttp(a)
    requires a.verb.CONNECT? || (!a.flags.chunked && (a.contentLength == 0 || a.contentLength == ULLONG_MAX))
    ensures var h := a.(state := HeadersDone, upgrade := true);
            var q := h.(state := StartState(a.typ));
            Step(Willing(), At(a, trace, Closed).(nread := k), LF)
              == (At(q, trace + [Notify(HeadersComplete, h)] + [Notify(MessageComplete, q)], Closed), Left(true))
  {
    var h := a.(state := HeadersDone, upgrade := true);
    SwitchedCases(a, LF);
    var m := At(h, trace + [Notify(HeadersComplete, h)], Closed).(nread := k + 1);
    assert Perform(Willing(), At(a, trace, Closed).(nread := k + 1), CaseOf(a, LF), LF) == (m, Again) by { hide CaseOf; }
    LastOfSwitched(h, trace + [Notify(HeadersComplete, h)], k + 1);
    hide CaseOf, Perform;
  }

  lemma LastOfSwitched(h: Parser, t: seq<Event>, k: nat)
    requires CaseOf(h, LF) == Case(h.(state := StartState(h.typ)), Exit, fire := Fire(MessageComplete, true), resetNread := true)
    ensures var q := h.(state := StartState(h.typ));
            Switch(Willing(), At(h, t, Closed).(nread := k), LF) == (At(q, t + [Notify(MessageComplete, q)], Closed), Left(true))
  {
    hide CaseOf;
  }

  lemma {:induction false} BodyGoesOn(p: Parser, trace: seq<Event>, bytes: seq<byte>, w: seq<byte>)
    requires p.state.BodyIdentity? && p.contentLength > |w|
    ensures Reads(At(p, trace, HttpBodies.OpenBody(bytes)), w,
                  At(p.(contentLength := p.contentLength - |w|), trace, HttpBodies.OpenBody(bytes + w)))
    decreases |w|
  {
    hide CaseOf, Reads, HttpBodies.OpenBody;
    if w == [] {
      ReadsNothing(At(p, trace, HttpBodies.OpenBody(bytes)));
      assert bytes + w == bytes;
    } else {
      var r := p.(contentLength := p.contentLength - 1);
      HttpBodies.BodyCases(p, w[0]);
      HttpBodies.MarkedByte(p, trace, bytes, w[0], r);
      BodyGoesOn(r, trace, bytes + [w[0]], w[1..]);
      ReadsAppend(At(p, trace, HttpBodies.OpenBody(bytes)), [w[0]], At(r, trace, HttpBodies.OpenBody(bytes + [w[0]])), w[1..],
                  At(p.(contentLength := p.contentLength - |w|), trace, HttpBodies.OpenBody(bytes + [w[0]] + w[1..])));
      assert [w[0]] + w[1..] == w && bytes + [w[0]] + w[1..] == bytes + w;
    }
  }

  lemma SwitchedDone(p: Parser, ch: byte)
    requires p.state.MessageDone? && p.upgrade
    ensures CaseOf(p, ch) == Case(p.(state := StartState(p.typ)), Exit, fire := Fire(MessageComplete, true))
  {
  }

  lemma SwitchedEnds(p: Parser, trace: seq<Event>, ch: byte, k: nat)
    requires p.state.MessageDone? && p.upgrade
    ensures var q := p.(state := StartState(p.typ));
            Switch(Willing(), At(p, trace, Closed).(nread := k), ch)
              == (At(q, trace + [Notify(MessageComplete, q)], Closed).(nread := k), Left(true))
  {
    SwitchedDone(p, ch);
    hide CaseOf;
  }

  lemma SwitchedLastByte(p: Parser, trace: seq<Event>, bytes: seq<byte>, ch: byte, k: nat)
    requires p.state.BodyIdentity? && p.contentLength == 1 && p.upgrade
    ensures var q := p.(contentLength := 0, state := StartState(p.typ));
            Step(Willing(), At(p, trace, HttpBodies.OpenBody(bytes)).(nread := k), ch)
              == (At(q, Emit(trace, Data(Body, bytes + [ch])) + [Notify(MessageComplete, q)], Closed).(nread := k), Left(true))
  {
    var m := At(p, trace, HttpBodies.OpenBody(bytes)).(nread := k);
    var done, t := p.(contentLength := 0, state := MessageDone), Emit(trace, Data(Body, bytes + [ch]));
    HttpBodies.BodyCases(p, ch);
    assert [] + [ch] == [ch];
    assert Count(m) == m;
    assert Perform(Willing(), m, CaseOf(p, ch), ch) == (At(done, t, Closed).(nread := k), Again) by { hide CaseOf, Emit; }
    SwitchedEnds(done, t, ch, k);
    hide CaseOf, Perform, Emit;
  }

  /** With a body it stops behind that. */
  lemma SwitchedBodyStops(p: Parser, trace: seq<Event>, w: seq<byte>, rest: seq<byte>)
    requires p.state.BodyIdentity? && p.contentLength == |w| > 0 && p.upgrade
    ensures var q := p.(contentLength := 0, state := StartState(p.typ));
            var r := Run(Willing(), At(p, trace, Closed), w + rest);
            && r.outcome == Left(true) && r.count == |w|
            && r.m == At(q, Emit(trace, Data(Body, w)) + [Notify(MessageComplete, q)], Closed).(nread := r.m.nread)
  {
    hide Run, Step, Emit, Reads, CaseOf, StartState;
    var n, m, r := |w| - 1, At(p, trace, Closed), p.(contentLength := 1);
    BodyGoesOn(p, trace, [], w[..n]);
    assert [] + w[..n] == w[..n] && w[..n] + [w[n]] == w && w + rest == w[..n] + ([w[n]] + rest);
    var o := At(r, trace, HttpBodies.OpenBody(w[..n]));
    var k := Run(Willing(), m, w[..n]).m.nread;
    assert Reads(m, w[..n], o);
    SwitchedLastByte(r, trace, w[..n], w[n], k);
    ReadThenStop(m, w[..n], o, w[n], Step(Willing(), o.(nread := k), w[n]).0, rest);
  }

  lemma ReadThenStop(m: Machine, a: seq<byte>, n: Machine, ch: byte, o: Machine, rest: seq<byte>)
    requires Reads(m, a, n)
    requires Step(Willing(), n.(nread := Run(Willing(), m, a).m.nread), ch) == (o, Left(true))
    ensures Run(Willing(), m, a + ([ch] + rest)) == RunResult(o, Left(true), |a| + 1)
  {
    hide Run, Step;
    RunAppend(Willing(), m, a, [ch] + rest);
    StopsAtOnce(Run(Willing(), m, a).m, ch, o, rest);
  }

  lemma StopsAtOnce(m: Machine, ch: byte, o: Machine, rest: seq<byte>)
    requires Step(Willing(), m, ch) == (o, Left(true))
    ensures Run(Willing(), m, [ch] + rest) == RunResult(o, Left(true), 1)
  {
    hide Step;
    assert ([ch] + rest)[0] == ch;
  }

  // ---------- errors ----------

  /** The error with which a byte is rejected in a state, if it is. */
  function ErrorIn(s: State): ParseError {
    if s.StartReq? || s.ReqMethod? then InvalidMethod
    else if s.ReqSpacesBeforeUrl? || InUrl(s) then InvalidUrl
    else if s.ReqHttpStart? || s.StartRes? || s.ResOrRespH? then InvalidConstant
    else if InVersion(s) then InvalidVersion
    else if s.ResFirstStatusCode? || s.ResStatusCode? then InvalidStatus
    else if s.ReqLineAlmostDone? then LfExpected
    else if s.HeaderFieldStart? || s.HeaderField? then InvalidHeaderToken
    else if s.HeaderValueDiscardWs? || s.HeaderValueStart? || s.HeaderValue? then InvalidContentLength
    else if s.ChunkSizeStart? || s.ChunkSize? then InvalidChunkSize
    else ClosedConnection
  }

  predicate InVersion(s: State) {
    s.ReqFirstHttpMajor? || s.ReqHttpMajor? || s.ReqFirstHttpMinor? || s.ReqHttpMinor? ||
    s.ResFirstHttpMajor? || s.ResHttpMajor? || s.ResFirstHttpMinor? || s.ResHttpMinor?
  }

  lemma FirstLineErrors(p: Parser, ch: byte)
    requires Phase(p.state).StatusPart? || Phase(p.state).RequestPart? || Phase(p.state).UrlPart?
    ensures CaseOf(p, ch).next.Fail? ==> CaseOf(p, ch).next.error == ErrorIn(p.state)
  {
    hide UrlNext, FirstMethod, OtherMethod, MethodString, CharAt, AddDigit;
  }

  lemma HeaderErrors(p: Parser, ch: byte)
    requires Phase(p.state).HeaderPart?
    ensures CaseOf(p, ch).next.Fail? ==> CaseOf(p, ch).next.error == ErrorIn(p.state)
  {
    hide FieldNext, FieldFirst, Token, ConnectionToken, ValueFlags, AddLengthDigit, ValueNext;
  }

  lemma BodyErrors(p: Parser, ch: byte)
    requires Phase(p.state).BodyPart?
    ensures CaseOf(p, ch).next.Fail? ==>
              if p.state.ChunkSize? && Unhex(ch) != -1 then CaseOf(p, ch).next.error == InvalidContentLength
              else CaseOf(p, ch).next.error == ErrorIn(p.state)
  {
    hide Unhex, NeedsEof, AddChunkDigit, HasBody;
  }

  /** The error tells the place: it depends on the state in which a byte is rejected, except that a
      chunk size that grows too large has the error of a length. */
  lemma ErrorsTellThePlace(p: Parser, ch: byte)
    ensures CaseOf(p, ch).next.Fail? ==>
              if p.state.ChunkSize? && Unhex(ch) != -1 then CaseOf(p, ch).next.error == InvalidContentLength
              else CaseOf(p, ch).next.error == ErrorIn(p.state)
  {
    hide CaseOf, ErrorIn, Unhex;
    match Phase(p.state)
    case HeaderPart => HeaderErrors(p, ch); NotChunkSize(p.state);
    case BodyPart => BodyErrors(p, ch);
    case _ => FirstLineErrors(p, ch); NotChunkSize(p.state);
  }

  lemma NotChunkSize(s: State)
    ensures s.ChunkSize? ==> Phase(s).BodyPart?
  {
  }

  // ---------- what callbacks decide ----------

  /** A notification goes on if its callback returns 0, or 1 behind a header, and does not pause; then
      the error is OK, or else Paused, or the one of that callback. */
  lemma CallbackDecides(note: Note, a: Answer)
    ensures var fine := a.code == 0 || (a.code == 1 && note.HeadersComplete?);
            && (NoteErrno(note, a) == OK <==> fine && !a.pause)
            && (NoteErrno(note, a) == Paused <==> fine && a.pause)
            && (NoteErrno(note, a).CbMessageBegin? <==> !fine && note.MessageBegin?)
            && (NoteErrno(note, a).CbHeadersComplete? <==> !fine && note.HeadersComplete?)
            && (NoteErrno(note, a).CbMessageComplete? <==> !fine && note.MessageComplete?)
            && (NoteErrno(note, a).CbChunkHeader? <==> !fine && note.ChunkHeader?)
            && (NoteErrno(note, a).CbChunkComplete? <==> !fine && note.ChunkComplete?)
  {
  }

  lemma SkippedCases(p: Parser, h: Parser, ch: byte)
    requires p.state.HeadersAlmostDone? && !p.flags.trailing
    requires h == p.(state := HeadersDone, upgrade := (p.flags.upgrade && p.flags.connectionUpgrade) || p.verb.CONNECT?)
    ensures CaseOf(p, ch) == Case(h, Reexec, fire := Fire(HeadersComplete, false))
    ensures var g := h.(flags := h.flags.(skipBody := true));
            CaseOf(g, ch) == Case(g.(state := StartState(p.typ)), if h.upgrade then Exit else Advance,
                                  fire := Fire(MessageComplete, true), resetNread := true)
  {
  }

  /** Where the callback behind the header returns 1, there is no body, whatever the header says: the
      message is complete, and if the protocol is switched the parser stops. */
  lemma SkippedBody(policy: Policy, p: Parser, trace: seq<Event>, h: Parser, q: Parser)
    requires p.state.HeadersAlmostDone? && !p.flags.trailing
    requires h == p.(state := HeadersDone, upgrade := (p.flags.upgrade && p.flags.connectionUpgrade) || p.verb.CONNECT?)
    requires q == h.(flags := h.flags.(skipBody := true), state := StartState(p.typ))
    requires policy(trace + [Notify(HeadersComplete, h)]) == Answer(1, false)
    requires policy(trace + [Notify(HeadersComplete, h)] + [Notify(MessageComplete, q)]) == Answer(0, false)
    ensures Step(policy, At(p, trace, Closed), LF)
              == (At(q, trace + [Notify(HeadersComplete, h)] + [Notify(MessageComplete, q)], Closed),
                  if h.upgrade then Left(true) else Running)
  {
    SkippedCases(p, h, LF);
    var g := h.(flags := h.flags.(skipBody := true));
    var t := trace + [Notify(HeadersComplete, h)];
    var m := At(g, t, Closed).(nread := 1);
    assert Perform(policy, At(p, trace, Closed).(nread := 1), CaseOf(p, LF), LF) == (m, Again) by { hide CaseOf; }
    SkippedEnds(policy, g, q, t, h.upgrade);
    hide CaseOf, Perform;
  }

  lemma SkippedEnds(policy: Policy, g: Parser, q: Parser, t: seq<Event>, stops: bool)
    requires policy(t + [Notify(MessageComplete, q)]) == Answer(0, false)
    requires CaseOf(g, LF) == Case(q, if stops then Exit else Advance, fire := Fire(MessageComplete, true), resetNread := true)
    ensures Switch(policy, At(g, t, Closed).(nread := 1), LF)
              == (At(q, t + [Notify(MessageComplete, q)], Closed), if stops then Left(true) else Running)
  {
    hide CaseOf;
  }

  /** Behind a digit of a chunk size comes another one, as long as the size fits, or the end of the
      line, or what begins the parameters. */
  lemma ChunkSizeGoesOn(p: Parser, ch: byte)
    requires p.state.ChunkSize?
    ensures CaseOf(p, ch).next.Advance? <==>
              || ch == CR || ch == 59 || ch == 32
              || ((48 <= ch <= 57 || 65 <= ch <= 70 || 97 <= ch <= 102 || ch >= 128) && 16 * p.contentLength + 31 <= ULLONG_MAX)
  {
  }

  // ---------- bytes that are passed over ----------

  /** Line ends before a request, and spaces before its URL. */
  predicate IsPassedOver(s: State, ch: byte) { (s.StartReq? && (ch == CR || ch == LF)) || (s.ReqSpacesBeforeUrl? && ch == SP) }

  lemma PassedOverCase(p: Parser, ch: byte)
    requires IsPassedOver(p.state, ch)
    ensures CaseOf(p, ch) == Case(p, Advance)
  {
  }

  lemma {:induction false} PassedOver(p: Parser, trace: seq<Event>, w: seq<byte>)
    requires forall i | 0 <= i < |w| :: IsPassedOver(p.state, w[i])
    ensures Reads(At(p, trace, Closed), w, At(p, trace, Closed))
    decreases |w|
  {
    hide CaseOf, Reads, IsPassedOver;
    if w == [] {
      ReadsNothing(At(p, trace, Closed));
    } else {
      PassedOverCase(p, w[0]);
      ReadsPlain(p, trace, Closed, w[0], p);
      PassedOver(p, trace, w[1..]);
      ReadsAppend(At(p, trace, Closed), [w[0]], At(p, trace, Closed), w[1..], At(p, trace, Closed));
      assert [w[0]] + w[1..] == w;
    }
  }

  // ---------- messages of either kind ----------

  lemma FirstBytes(p: Parser, ch: byte)
    requires p.flags == NO_FLAGS && p.headerState.General? && p.statusCode == 0 && !p.upgrade
    ensures p.state.StartReqOrRes? && ch != CR && ch != LF ==>
              CaseOf(p, ch) ==
                if ch == 72 then
                  Case(p.(contentLength := ULLONG_MAX, state := ResOrRespH), Advance, fire := Fire(MessageBegin, true))
                else Case(p.(contentLength := ULLONG_MAX, typ := ParserType.Request, state := StartReq), Reexec)
    ensures p.state.StartRes? ==>
              CaseOf(p, 72) == Case(p.(contentLength := ULLONG_MAX, state := ResH), Advance, fire := Fire(MessageBegin, true))
    ensures p.state.StartReq? ==>
              CaseOf(p, 72) == Case(p.(contentLength := ULLONG_MAX, verb := HEAD, index := 1, state := ReqMethod), Advance,
                                    fire := Fire(MessageBegin, true))
  {
  }

  lemma SecondBytes(p: Parser, ch: byte)
    ensures p.state.ResOrRespH? ==>
              && CaseOf(p, 84) == Case(p.(typ := ParserType.Response, state := ResHT), Advance)
              && CaseOf(p, 69) == Case(p.(typ := ParserType.Request, verb := HEAD, index := 2, state := ReqMethod), Advance)
              && (ch != 84 && ch != 69 ==> !CaseOf(p, ch).next.Advance?)
    ensures p.state.ResH? ==> CaseOf(p, 84) == Case(p.(state := ResHT), Advance)
    ensures p.state.ReqMethod? && p.verb == HEAD && p.index == 1 ==> CaseOf(p, 69) == Case(p.(index := 2), Advance)
  {
  }

  lemma TwoBytes(p: Parser, a: byte, b: byte)
    requires CaseOf(p, a).next.Advance?
    ensures Follow(p, [a, b]) == if CaseOf(CaseOf(p, a).p, b).next.Advance? then Some(CaseOf(CaseOf(p, a).p, b).p) else None
  {
    hide CaseOf;
    assert [a, b][..1] == [a] && [a][..0] == [];
    assert Follow(p, [a]) == Some(CaseOf(p, a).p);
  }

  /** A parser for both kinds decides by the first bytes: behind "HT" it is as one for responses, behind
      "HE" as one for requests, and another first byte is that of a request. */
  lemma EitherKind(ch: byte)
    requires ch != CR && ch != LF
    ensures var both, request, response := InitialParser(Both), InitialParser(ParserType.Request), InitialParser(ParserType.Response);
            && Follow(both, [72, 84]) == Follow(response, [72, 84]) && Follow(both, [72, 84]).Some?
            && Follow(both, [72, 69]) == Follow(request, [72, 69]) && Follow(both, [72, 69]).Some?
            && (ch != 84 && ch != 69 ==> Follow(both, [72, ch]).None?)
            && (ch != 72 ==> CaseOf(both, ch) == Case(request.(contentLength := ULLONG_MAX), Reexec))
  {
    var both, request, response := InitialParser(Both), InitialParser(ParserType.Request), InitialParser(ParserType.Response);
    FirstBytes(both, ch);
    FirstBytes(both, 72);
    FirstBytes(request, 72);
    FirstBytes(response, 72);
    SecondBytes(CaseOf(both, 72).p, ch);
    SecondBytes(CaseOf(request, 72).p, ch);
    SecondBytes(CaseOf(response, 72).p, ch);
    TwoBytes(both, 72, 84);
    TwoBytes(both, 72, 69);
    TwoBytes(both, 72, ch);
    TwoBytes(response, 72, 84);
    TwoBytes(request, 72, 69);
    hide CaseOf, Follow;
  }
}
