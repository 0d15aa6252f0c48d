/** When a token that is being collected ends in an error, in terms of the bytes that follow. */
module HttpTokens {
  import opened Common
  import opened HttpTypes
  import opened HttpCases
  import opened HttpMachine
  import opened HttpSplit
  import opened HttpInvariant

  /** The first byte that is no token character is there, and it is not the colon. */
  predicate FieldFails(data: seq<byte>) {
    data != [] && if Token(data[0]) != 0 then FieldFails(data[1..]) else data[0] != ':' as int
  }

  /** Before the end of the line there is a byte that is neither a space nor a digit that the
      number n so far can take. */
  predicate LengthFails(n: nat, data: seq<byte>)
    decreases |data|
  {
    && data != [] && data[0] != CR && data[0] != LF
    && if data[0] == SP then LengthFails(n, data[1..])
       else
         var more := AddLengthDigit(n, data[0]);
         more.None? || LengthFails(more.value, data[1..])
  }

  /** The states in which a URL must not end yet. */
  predicate UrlOpening(s: State) {
    s.ReqSchema? || s.ReqSchemaSlash? || s.ReqSchemaSlashSlash? || s.ReqServerStart?
  }

  /** Before the first space or line end there is a character that cannot go on the URL, or the URL
      ends too early. */
  predicate UrlFails(s: State, data: seq<byte>)
    decreases |data|
  {
    && data != []
    && if data[0] == SP || data[0] == CR || data[0] == LF then UrlOpening(s)
       else UrlNext(s, data[0]).Dead? || UrlFails(UrlNext(s, data[0]), data[1..])
  }

  /** Only header names, the values of Content-Length and URLs can fail. */
  predicate TokenFails(p: Parser, data: seq<byte>) {
    if p.state.HeaderField? then FieldFails(data)
    else if p.state.HeaderValue? then p.headerState.ContentLength? && LengthFails(p.contentLength, data)
    else InUrl(p.state) && UrlFails(p.state, data)
  }

  // ---------- one byte of a token ----------

  /** What a byte does to a token: it fails, ends it, or is collected and leads to q. */
  datatype Effect = Fails | Ends | Collected(q: Parser)

  ghost predicate Does(policy: Policy, m: Machine, ch: byte, e: Effect) {
    var (n, outcome) := Step(policy, m, ch);
    match e
    case Fails => outcome.Failed?
    case Ends => !outcome.Failed? && (outcome.Running? ==> n.open.Closed?)
    case Collected(q) => outcome.Running? && n.open.Open? && n.p == q
  }

  lemma StayingStep(policy: Policy, m: Machine, ch: byte, k: Case)
    requires m.open.Open? && CaseOf(m.p, ch) == k && k == Case(k.p, Advance, mark := k.mark)
    ensures Does(policy, m, ch, Collected(k.p))
  {
    hide CaseOf, Emit;
  }

  lemma FailingStep(policy: Policy, m: Machine, ch: byte)
    requires var k := CaseOf(m.p, ch); k.next.Fail? && k.fire.Silent?
    ensures Does(policy, m, ch, Fails)
  {
    hide CaseOf, Emit;
  }

  lemma EndingStep(policy: Policy, m: Machine, ch: byte)
    requires m.open.Open?
    requires var k := CaseOf(m.p, ch);
             && !k.close.NoClose? && k.close.kind == m.open.kind && k.fire.Silent?
             && (k.next.Advance? || (k.next.Reexec? && (k.p.state.HeaderAlmostDone? || k.p.state.MessageDone?)))
             && (k.mark == None || k.mark == Some(m.open.kind))
    ensures Does(policy, m, ch, Ends)
  {
    var k := CaseOf(m.p, ch);
    var n := Prepare(Count(m), k, ch);
    hide CaseOf, Emit;
    if k.next.Reexec? {
      NoFailureAfterReport(policy, n, ch);
    }
  }

  function FieldEffect(p: Parser, ch: byte): Effect
    requires p.state.HeaderField?
  {
    if Token(ch) != 0 then Collected(FieldCase(p, ch).p) else if ch == ':' as int then Ends else Fails
  }

  lemma FieldByte(policy: Policy, m: Machine, ch: byte)
    requires m.p.state.HeaderField? && m.open.Open? && m.open.kind == Field
    ensures Does(policy, m, ch, FieldEffect(m.p, ch))
    ensures Token(ch) != 0 ==> FieldCase(m.p, ch).p.state.HeaderField?
  {
    assert CaseOf(m.p, ch) == FieldCase(m.p, ch) by { hide FieldCase; }
    hide CaseOf, Does, FieldNext, Token;
    if Token(ch) != 0 {
      StayingStep(policy, m, ch, FieldCase(m.p, ch));
    } else if ch == ':' as int {
      EndingStep(policy, m, ch);
    } else {
      FailingStep(policy, m, ch);
    }
  }

  lemma ValueByte(policy: Policy, m: Machine, ch: byte)
    requires m.p.state.HeaderValue? && m.open.Open? && m.open.kind == Value
    ensures var k := ValueCase(m.p, ch);
            if ch == CR || ch == LF then Does(policy, m, ch, Ends)
            else if k.next.Fail? then Does(policy, m, ch, Fails)
            else Does(policy, m, ch, Collected(k.p)) && k.p.state.HeaderValue?
  {
    assert CaseOf(m.p, ch) == ValueCase(m.p, ch) by { hide ValueCase; }
    hide CaseOf, Does, ValueNext, AddLengthDigit;
    var k := ValueCase(m.p, ch);
    if ch == CR || ch == LF {
      EndingStep(policy, m, ch);
    } else if k.next.Fail? {
      FailingStep(policy, m, ch);
    } else {
      StayingStep(policy, m, ch, k);
    }
  }

  /** A value becomes a Content-Length only by the name of the header. */
  lemma ValueKeepsLength(p: Parser, ch: byte)
    requires p.state.HeaderValue? && ch != CR && ch != LF && !ValueCase(p, ch).next.Fail?
    ensures var q := ValueCase(p, ch).p;
            && (q.headerState.ContentLength? <==> p.headerState.ContentLength?)
            && (p.headerState.ContentLength? ==>
                  q.contentLength == if ch == SP then p.contentLength else AddLengthDigit(p.contentLength, ch).value)
  {
    hide AddLengthDigit, ValueNext;
    if !p.headerState.ContentLength? {
      NextIsNoLength(p, ch);
    }
  }

  lemma NextIsNoLength(p: Parser, ch: byte)
    requires !p.headerState.ContentLength?
    ensures !ValueNext(p, ch).headerState.ContentLength?
  {
    hide Lower, StrictToken, MatchMore, ConnectionToken;
    ConnectionTokens(Lower(ch));
  }

  lemma UrlByte(policy: Policy, m: Machine, ch: byte)
    requires InUrl(m.p.state) && m.open.Open? && m.open.kind == Url
    ensures if ch == SP || ch == CR || ch == LF then Does(policy, m, ch, if UrlOpening(m.p.state) then Fails else Ends)
            else if UrlNext(m.p.state, ch).Dead? then Does(policy, m, ch, Fails)
            else Does(policy, m, ch, Collected(m.p.(state := UrlNext(m.p.state, ch))))
  {
    assert CaseOf(m.p, ch) == UrlCase(m.p, ch) by { hide UrlCase; }
    hide CaseOf, Does, UrlNext;
    var k := UrlCase(m.p, ch);
    if k.next.Fail? {
      FailingStep(policy, m, ch);
    } else if ch == SP || ch == CR || ch == LF {
      EndingStep(policy, m, ch);
    } else {
      StayingStep(policy, m, ch, k);
    }
  }

  /** Status texts and bodies do not fail. */
  lemma OtherByte(policy: Policy, m: Machine, ch: byte)
    requires MarksFit(m.p.state, m.open) && m.open.Open? && Inv(m.p)
    requires !m.p.state.HeaderField? && !m.p.state.HeaderValue? && !InUrl(m.p.state)
    ensures var k := CaseOf(m.p, ch);
            Does(policy, m, ch, Ends) ||
            (Does(policy, m, ch, Collected(k.p)) &&
             !k.p.state.HeaderField? && !k.p.state.HeaderValue? && !InUrl(k.p.state))
  {
    OtherCase(m.p, m.open.kind, ch);
    hide CaseOf, Does, Inv;
    var k := CaseOf(m.p, ch);
    if k.close.NoClose? {
      StayingStep(policy, m, ch, k);
    } else {
      EndingStep(policy, m, ch);
    }
  }

  lemma OtherCase(p: Parser, kind: DataKind, ch: byte)
    requires Inv(p) && CollectedIn(p.state) == Some(kind)
    requires !p.state.HeaderField? && !p.state.HeaderValue? && !InUrl(p.state)
    ensures var k := CaseOf(p, ch);
            if k.close.NoClose? then
              k == Case(k.p, Advance, mark := k.mark) &&
              !k.p.state.HeaderField? && !k.p.state.HeaderValue? && !InUrl(k.p.state)
            else
              && k.close.kind == kind && k.fire.Silent? && (k.mark == None || k.mark == Some(kind))
              && (k.next.Advance? || (k.next.Reexec? && k.p.state.MessageDone?))
  {
    hide MethodString, IsFieldState, FieldIndexFits, ValueIndexFits;
  }

  // ---------- the token ----------

  /** The parser fails inside the open token exactly if the bytes are such that it must. */
  lemma {:induction false} FailsInsideIff(policy: Policy, m: Machine, data: seq<byte>)
    requires m.open.Open? && MarksFit(m.p.state, m.open) && Inv(m.p)
    ensures FailsInsideToken(policy, m, data) <==> TokenFails(m.p, data)
    decreases |data|
  {
    hide Step, CaseOf, Inv, Token, UrlNext, FieldCase, ValueCase;
    if data != [] {
      var ch := data[0];
      StepKeepsMarks(policy, m, ch);
      StepKeepsInv(policy, m, ch);
      var (n, outcome) := Step(policy, m, ch);
      if outcome.Running? && n.open.Open? {
        FailsInsideIff(policy, n, data[1..]);
      }
      if m.p.state.HeaderField? {
        FieldByte(policy, m, ch);
      } else if m.p.state.HeaderValue? {
        ValueByte(policy, m, ch);
        if ch != CR && ch != LF && !ValueCase(m.p, ch).next.Fail? {
          ValueKeepsLength(m.p, ch);
        }
        LengthByte(m.p, ch);
      } else if InUrl(m.p.state) {
        UrlByte(policy, m, ch);
      } else {
        OtherByte(policy, m, ch);
      }
    }
  }

  lemma LengthByte(p: Parser, ch: byte)
    requires p.state.HeaderValue?
    ensures ValueCase(p, ch).next.Fail? <==>
            p.headerState.ContentLength? && ch != CR && ch != LF && ch != SP && AddLengthDigit(p.contentLength, ch).None?
  {
    hide ValueNext, AddLengthDigit;
  }
}
