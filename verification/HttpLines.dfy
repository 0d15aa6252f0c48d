/** The lines of a header value: how the parser goes through them, whatever their ends, and whether
    they are continued or not. */
module HttpLines {
  import opened Common
  import opened HttpTypes
  import opened HttpCases
  import opened HttpMachine

  // ---------- bytes that do not fail ----------

  /** The parser after one byte, callbacks aside: with REEXECUTE() the next case sees it as well. */
  function Through(p: Parser, ch: byte): Option<Parser>
    decreases Rank(p.state)
  {
    var k := CaseOf(p, ch);
    if k.next.Advance? then Some(k.p) else if k.next.Reexec? then Through(k.p, ch) else None
  }

  function Passes(p: Parser, w: seq<byte>): Option<Parser>
    decreases |w|
  {
    if w == [] then Some(p)
    else
      var q := Through(p, w[0]);
      if q.None? then None else Passes(q.value, w[1..])
  }

  lemma {:induction false} PassesAppend(p: Parser, a: seq<byte>, b: seq<byte>)
    ensures Passes(p, a + b) == if Passes(p, a).None? then None else Passes(Passes(p, a).value, b)
    decreases |a|
  {
    hide Through;
    if a == [] {
      assert a + b == b;
    } else {
      assert (a + b)[1..] == a[1..] + b;
      if Through(p, a[0]).Some? {
        PassesAppend(Through(p, a[0]).value, a[1..], b);
      }
    }
  }

  lemma PassesOne(p: Parser, ch: byte)
    ensures Passes(p, [ch]) == Through(p, ch)
  {
    hide Through;
    assert [ch][1..] == [];
  }

  lemma {:induction false} SwitchThrough(policy: Policy, m: Machine, ch: byte)
    requires (forall t :: policy(t) == Answer(0, false)) && Through(m.p, ch).Some?
    ensures var (n, outcome) := Switch(policy, m, ch); outcome.Running? && n.p == Through(m.p, ch).value
    decreases Rank(m.p.state)
  {
    hide CaseOf, Emit;
    var (n, signal) := Perform(policy, m, CaseOf(m.p, ch), ch);
    if signal.Again? {
      SwitchThrough(policy, n, ch);
    }
  }

  /** Passing is what a run does when no callback objects. */
  lemma {:induction false} PassesIsRun(policy: Policy, m: Machine, w: seq<byte>)
    requires (forall t :: policy(t) == Answer(0, false)) && Passes(m.p, w).Some?
    ensures var r := Run(policy, m, w); r.outcome.Running? && r.m.p == Passes(m.p, w).value
    decreases |w|
  {
    hide Switch, Through;
    if w != [] {
      assert Count(m).p == m.p;
      SwitchThrough(policy, Count(m), w[0]);
      PassesIsRun(policy, Step(policy, m, w[0]).0, w[1..]);
    }
  }

  // ---------- the text of a line ----------

  predicate IsText(w: seq<byte>) { CR !in w && LF !in w }

  predicate InValue(p: Parser) { p.state.HeaderValue? && !p.headerState.ContentLength? }

  function Read(p: Parser, w: seq<byte>): Parser
    decreases |w|
  {
    if w == [] then p else Read(ValueNext(p, w[0]), w[1..])
  }

  lemma {:induction false} ReadAppend(p: Parser, a: seq<byte>, b: seq<byte>)
    ensures Read(p, a + b) == Read(Read(p, a), b)
    decreases |a|
  {
    hide ValueNext;
    if a == [] {
      assert a + b == b;
    } else {
      assert (a + b)[1..] == a[1..] + b;
      ReadAppend(ValueNext(p, a[0]), a[1..], b);
    }
  }

  lemma ValueGoesOn(p: Parser, ch: byte)
    requires InValue(p) && ch != CR && ch != LF
    ensures CaseOf(p, ch) == Stay(ValueNext(p, ch)) && InValue(ValueNext(p, ch))
  {
    hide ValueNext;
    NoLengthBegins(p, ch);
    assert CaseOf(p, ch) == ValueCase(p, ch);
    hide CaseOf;
  }

  lemma NoLengthBegins(p: Parser, ch: byte)
    requires !p.headerState.ContentLength?
    ensures !ValueNext(p, ch).headerState.ContentLength?
  {
    hide MatchMore, Lower, StrictToken, ConnectionToken;
    ConnectionTokens(Lower(ch));
  }

  lemma ConnectionTokens(c: byte)
    ensures !ConnectionToken(c).ContentLength?
  {
  }

  /** Within a line a value is read by ValueNext alone. */
  lemma {:induction false} ValueIsRead(p: Parser, w: seq<byte>)
    requires InValue(p) && IsText(w)
    ensures Passes(p, w) == Some(Read(p, w)) && InValue(Read(p, w))
    decreases |w|
  {
    hide CaseOf, ValueNext;
    if w != [] {
      ValueGoesOn(p, w[0]);
      ValueIsRead(ValueNext(p, w[0]), w[1..]);
    }
  }

  // ---------- the ends of a line ----------

  /** A line ends with CR LF, or with LF alone. */
  datatype Line = Line(text: seq<byte>, end: seq<byte>)

  predicate IsLine(l: Line) { IsText(l.text) && (l.end == [CR, LF] || l.end == [LF]) }

  function Flat(ls: seq<Line>): seq<byte> {
    if ls == [] then [] else ls[0].text + ls[0].end + Flat(ls[1..])
  }

  predicate IsBlank(ch: byte) { ch == SP || ch == TAB }

  /** White space in front of a value, in which lines may end if the next one begins with white
      space. */
  predicate IsPad(w: seq<byte>)
    decreases |w|
  {
    || w == []
    || (IsBlank(w[0]) && IsPad(w[1..]))
    || (|w| > 1 && w[0] == LF && IsBlank(w[1]) && IsPad(w[2..]))
    || (|w| > 2 && w[0] == CR && w[1] == LF && IsBlank(w[2]) && IsPad(w[3..]))
  }

  predicate IsContinued(l: Line) { IsLine(l) && l.text != [] && IsBlank(l.text[0]) }

  predicate AreContinued(ls: seq<Line>) { forall i | 0 <= i < |ls| :: IsContinued(ls[i]) }

  /** A value: a line, as it stands after the white space in front of it, and the lines that
      continue it, each of which begins with white space. */
  predicate IsValue(first: Line, more: seq<Line>) {
    && IsLine(first) && AreContinued(more)
    && if first.text == [] then more == [] else !IsBlank(first.text[0])
  }

  lemma DiscardWsCases(p: Parser, ch: byte)
    requires p.state.HeaderValueDiscardWs?
    ensures CaseOf(p, ch) == DiscardWsCase(p, ch)
  {
    hide DiscardWsCase;
  }

  lemma LineCases(p: Parser, ch: byte)
    ensures p.state.HeaderAlmostDone? ==> CaseOf(p, ch) == Go(p, HeaderValueLws)
    ensures p.state.HeaderValueDiscardWsAlmostDone? ==> CaseOf(p, ch) == Go(p, HeaderValueDiscardLws)
    ensures p.state.HeaderValue? ==> CaseOf(p, ch) == ValueCase(p, ch)
    ensures p.state.HeaderValueLws? ==> CaseOf(p, ch) == ValueLwsCase(p, ch)
    ensures p.state.HeaderValueDiscardLws? ==> CaseOf(p, ch) == DiscardLwsCase(p, ch)
    ensures p.state.HeaderValueStart? ==> CaseOf(p, ch) == ValueStartCase(p, ch)
  {
    hide ValueCase, ValueLwsCase, DiscardLwsCase, ValueStartCase;
  }

  lemma ValueEnds(p: Parser, l: Line)
    requires p.state.HeaderValue? && IsLine(l)
    ensures Passes(p, l.end) == Some(p.(state := HeaderValueLws))
  {
    hide CaseOf, Passes;
    LineCases(p, l.end[0]);
    LineCases(p.(state := HeaderAlmostDone), LF);
    PassesOne(p, l.end[0]);
    PassesOne(p.(state := HeaderAlmostDone), LF);
    PassesAppend(p, [CR], [LF]);
    assert [CR] + [LF] == [CR, LF];
  }

  lemma PadEnds(p: Parser, l: Line)
    requires p.state.HeaderValueDiscardWs? && IsLine(l)
    ensures Passes(p, l.end) == Some(p.(state := HeaderValueDiscardLws))
  {
    hide CaseOf, Passes;
    DiscardWsCases(p, l.end[0]);
    LineCases(p.(state := HeaderValueDiscardWsAlmostDone), LF);
    PassesOne(p, l.end[0]);
    PassesOne(p.(state := HeaderValueDiscardWsAlmostDone), LF);
    PassesAppend(p, [CR], [LF]);
    assert [CR] + [LF] == [CR, LF];
  }

  lemma {:induction false} PadIsSkipped(p: Parser, pad: seq<byte>)
    requires p.state.HeaderValueDiscardWs? && IsPad(pad)
    ensures Passes(p, pad) == Some(p)
    decreases |pad|
  {
    hide CaseOf, Passes;
    if pad == [] {
      PassesNothing(p);
    } else if IsBlank(pad[0]) && IsPad(pad[1..]) {
      BlankInPad(p, pad[0]);
      PadIsSkipped(p, pad[1..]);
      PassesAppend(p, [pad[0]], pad[1..]);
      assert [pad[0]] + pad[1..] == pad;
    } else {
      var end: seq<byte> := if pad[0] == LF then [LF] else [CR, LF];
      var n := |end|;
      PadEnds(p, Line([], end));
      FoldInPad(p.(state := HeaderValueDiscardLws), pad[n]);
      PadIsSkipped(p, pad[n + 1..]);
      PassesAppend(p, end, [pad[n]]);
      PassesAppend(p, end + [pad[n]], pad[n + 1..]);
      assert end + [pad[n]] + pad[n + 1..] == pad;
    }
  }

  lemma PassesNothing(p: Parser)
    ensures Passes(p, []) == Some(p)
  {
  }

  lemma BlankInPad(p: Parser, ch: byte)
    requires p.state.HeaderValueDiscardWs? && IsBlank(ch)
    ensures Passes(p, [ch]) == Some(p)
  {
    hide CaseOf, Passes;
    DiscardWsCases(p, ch);
    PassesOne(p, ch);
  }

  lemma FoldInPad(p: Parser, ch: byte)
    requires p.state.HeaderValueDiscardLws? && IsBlank(ch)
    ensures Passes(p, [ch]) == Some(p.(state := HeaderValueDiscardWs))
  {
    hide CaseOf, Passes;
    LineCases(p, ch);
    PassesOne(p, ch);
  }

  // ---------- whole lines ----------

  /** The first line of a value, for the two kinds of header that are not numbers. */
  lemma FirstLine(p: Parser, pad: seq<byte>, l: Line)
    requires p.state.HeaderValueDiscardWs? && IsPad(pad) && IsLine(l) && l.text != [] && !IsBlank(l.text[0])
    requires p.headerState.Connection? || p.headerState.TransferEncoding?
    ensures var q := ValueStartCase(p, l.text[0]).p;
            && InValue(q) && InValue(Read(q, l.text[1..]))
            && Passes(p, pad + (l.text + l.end)) == Some(Read(q, l.text[1..]).(state := HeaderValueLws))
  {
    hide CaseOf, Passes, Read, ValueNext;
    var v, k := l.text, ValueStartCase(p, l.text[0]);
    DiscardWsCases(p, v[0]);
    ConnectionTokens(Lower(v[0]));
    PassesOne(p, v[0]);
    assert v == [v[0]] + v[1..];
    ValueIsRead(k.p, v[1..]);
    ValueEnds(Read(k.p, v[1..]), l);
    PassesAppend(p, [v[0]], v[1..]);
    PassesAppend(p, v, l.end);
    PadIsSkipped(p, pad);
    PassesAppend(p, pad, v + l.end);
  }

  lemma EmptyLine(p: Parser, pad: seq<byte>, l: Line)
    requires p.state.HeaderValueDiscardWs? && IsPad(pad) && IsLine(l)
    ensures Passes(p, pad + l.end) == Some(p.(state := HeaderValueDiscardLws))
  {
    hide CaseOf, Passes;
    PadIsSkipped(p, pad);
    PadEnds(p, l);
    PassesAppend(p, pad, l.end);
  }

  /** The header states that are left behind once a value has begun. */
  predicate IsBegun(h: HeaderState) {
    !h.Connection? && !h.ContentLength? && !h.TransferEncoding? && !h.Upgrade?
  }

  /** What a parser knows of a value that goes on in the next line: only that a token is to come. */
  function Continued(p: Parser): Parser {
    p.(state := HeaderValue, index := 0,
       headerState := if p.headerState.MatchingConnectionTokenStart? then p.headerState else General)
  }

  lemma FoldBegins(p: Parser, ch: byte)
    requires p.state.HeaderValueLws? && IsBegun(p.headerState) && IsBlank(ch)
    ensures Passes(p, [ch]) == Some(Continued(p))
  {
    hide CaseOf, Passes;
    LineCases(p, ch);
    LineCases(p.(state := HeaderValueStart), ch);
    PassesOne(p, ch);
    assert Through(p.(state := HeaderValueStart), ch) == Some(Continued(p));
  }

  /** A line that continues a value. */
  lemma NextLine(p: Parser, l: Line)
    requires p.state.HeaderValueLws? && IsBegun(p.headerState) && IsContinued(l)
    ensures Passes(p, l.text + l.end) == Some(Read(Continued(p), l.text[1..]).(state := HeaderValueLws))
  {
    hide CaseOf, Passes, Read, ValueNext;
    var v := l.text;
    FoldBegins(p, v[0]);
    assert v == [v[0]] + v[1..];
    ValueIsRead(Continued(p), v[1..]);
    ValueEnds(Read(Continued(p), v[1..]), l);
    PassesAppend(p, [v[0]], v[1..]);
    PassesAppend(p, v, l.end);
  }

  /** The flags once a line has been read and the byte behind it does not continue the value. */
  lemma FlagsAreSet(p: Parser, ch: byte)
    requires (p.state.HeaderValueLws? || p.state.HeaderValueDiscardLws?) && !IsBlank(ch)
    ensures CaseOf(p, ch).p.state.HeaderFieldStart? && CaseOf(p, ch).p.flags == ValueFlags(p.flags, p.headerState)
  {
    hide ValueFlags;
  }
}
