/** No run of the parser reaches a failing assertion of the source. */
module HttpInvariant {
  import opened Common
  import opened HttpTypes
  import opened HttpCases
  import opened HttpMachine
  import HttpSplit

  // ---------- the invariant ----------

  /** While a header name is matched against a keyword, index counts the characters matched. */
  predicate FieldIndexFits(h: HeaderState, i: nat) {
    match h
    case C => i == 0
    case CO => i == 1
    case CON => i == 2
    case MatchingConnection => i < 9
    case MatchingProxyConnection => i < 15
    case MatchingContentLength => i < 13
    case MatchingTransferEncoding => i < 16
    case MatchingUpgrade => i < 6
    case _ => i <= 17
  }

  predicate ValueIndexFits(h: HeaderState, i: nat) {
    match h
    case MatchingConnectionTokenStart => i == 0
    case MatchingTransferEncodingChunked => i < 6
    case MatchingConnectionKeepAlive => i < 9
    case MatchingConnectionClose => i < 4
    case MatchingConnectionUpgrade => i < 6
    case _ => i <= 17
  }

  /** What holds of the parser whenever it looks at a byte. The last conjunct says that the
      8-bit field index never wraps, the first that the 64-bit field content_length does not. */
  predicate Inv(p: Parser) {
    && p.contentLength <= ULLONG_MAX
    && (InChunk(p.state) ==> p.flags.chunked)
    && (p.state.ChunkSize? || p.state.ChunkParameters? || p.state.ChunkSizeAlmostDone? ==>
          p.contentLength < ULLONG_MAX)
    && (p.state.ChunkData? || p.state.BodyIdentity? ==> 0 < p.contentLength < ULLONG_MAX)
    && (p.state.ChunkDataAlmostDone? ==> p.contentLength == 0)
    && (p.state.HeaderField? ==> IsFieldState(p.headerState) && FieldIndexFits(p.headerState, p.index))
    && (p.state.HeaderValue? ==> !p.headerState.Connection? && !p.headerState.TransferEncoding? &&
                                 ValueIndexFits(p.headerState, p.index))
    && (p.state.ReqMethod? ==> 1 <= p.index <= |MethodString(p.verb)|)
    && p.index <= 17
  }

  /** Chunk sizes start with nread reset. */
  predicate NreadFits(p: Parser, nread: nat) {
    p.state.ChunkSizeStart? ==> nread == 0
  }

  // ---------- every case keeps it ----------

  predicate CaseIsSafe(p: Parser, k: Case) {
    && !k.next.Abort?
    && (!k.next.Fail? ==> Inv(k.p) && (k.p.state.ChunkSizeStart? ==> k.resetNread))
  }

  predicate StartsLine(s: State) { s.StartReqOrRes? || s.ResOrRespH? || s.StartRes? }

  lemma LineStartIsSafe(p: Parser, ch: byte)
    requires Inv(p) && StartsLine(p.state)
    ensures CaseIsSafe(p, StatusLineCase(p, ch))
  {
    HeadHasFourLetters();
    hide MethodString, IsFieldState, FieldIndexFits, ValueIndexFits;
  }

  /** A case that leads to a state of which the invariant says nothing. */
  predicate Harmless(p: Parser, k: Case) {
    !k.next.Abort? && (!k.next.Fail? ==> k.p.contentLength == p.contentLength && k.p.index <= 17 && Quiet(k.p.state))
  }

  predicate Quiet(s: State) {
    !InChunk(s) && !s.BodyIdentity? && !s.HeaderField? && !s.HeaderValue? && !s.ReqMethod?
  }

  lemma HarmlessIsSafe(p: Parser, k: Case)
    requires Inv(p) && Harmless(p, k)
    ensures CaseIsSafe(p, k)
  {
    hide MethodString, IsFieldState, FieldIndexFits, ValueIndexFits;
  }

  lemma StatusIsHarmless(p: Parser, ch: byte)
    requires p.index <= 17 && Phase(p.state).StatusPart? && !StartsLine(p.state)
    ensures Harmless(p, StatusLineCase(p, ch))
  {
    hide AddDigit, StartReqOrResCase, ResOrRespHCase, StartResCase;
  }

  lemma RequestIsHarmless(p: Parser, ch: byte)
    requires p.index <= 17 && Phase(p.state).RequestPart? && !p.state.ReqMethod? && !p.state.StartReq?
    ensures Harmless(p, RequestLineCase(p, ch))
  {
    hide AddDigit, UrlNext, StartReqCase, MethodCase;
  }

  lemma StatusLineIsSafe(p: Parser, ch: byte)
    requires Inv(p) && Phase(p.state).StatusPart?
    ensures CaseIsSafe(p, StatusLineCase(p, ch))
  {
    if StartsLine(p.state) {
      LineStartIsSafe(p, ch);
    } else {
      StatusIsHarmless(p, ch);
      HarmlessIsSafe(p, StatusLineCase(p, ch));
    }
    hide StatusLineCase, CaseIsSafe;
  }

  lemma HeadHasFourLetters()
    ensures |MethodString(HEAD)| == 4
  {
  }

  /** Every guess of the method is long enough for the letters already read. */
  lemma MethodsAreLongEnough(p: Parser, ch: byte)
    requires p.state.ReqMethod? && Inv(p)
    ensures CharAt(MethodString(p.verb), p.index) != 0 ==> p.index < |MethodString(p.verb)|
    ensures OtherMethod(p.verb, p.index, ch).Some? ==>
              p.index < |MethodString(OtherMethod(p.verb, p.index, ch).value)|
    ensures |MethodString(p.verb)| <= 11
  {
  }

  lemma FirstMethodHasALetter(ch: byte)
    ensures FirstMethod(ch).Some? ==> 1 <= |MethodString(FirstMethod(ch).value)|
  {
  }

  lemma MethodIsSafe(p: Parser, ch: byte)
    requires Inv(p) && p.state.ReqMethod?
    ensures CaseIsSafe(p, MethodCase(p, ch))
  {
    MethodsAreLongEnough(p, ch);
    hide MethodString, OtherMethod, CharAt, IsFieldState, FieldIndexFits, ValueIndexFits;
  }

  lemma StartReqIsSafe(p: Parser, ch: byte)
    requires Inv(p) && p.state.StartReq?
    ensures CaseIsSafe(p, StartReqCase(p, ch))
  {
    FirstMethodHasALetter(ch);
    hide MethodString, FirstMethod, IsFieldState, FieldIndexFits, ValueIndexFits;
  }

  lemma RequestLineIsSafe(p: Parser, ch: byte)
    requires Inv(p) && Phase(p.state).RequestPart?
    ensures CaseIsSafe(p, RequestLineCase(p, ch))
  {
    if p.state.ReqMethod? {
      MethodIsSafe(p, ch);
    } else if p.state.StartReq? {
      StartReqIsSafe(p, ch);
    } else {
      RequestIsHarmless(p, ch);
      HarmlessIsSafe(p, RequestLineCase(p, ch));
    }
    hide StartReqCase, MethodCase, CaseIsSafe;
  }

  lemma UrlIsSafe(p: Parser, ch: byte)
    requires Inv(p) && Phase(p.state).UrlPart?
    ensures CaseIsSafe(p, UrlCase(p, ch))
  {
    hide UrlNext, MethodString, IsFieldState, FieldIndexFits, ValueIndexFits;
  }

  lemma FieldNextIsSafe(h: HeaderState, i: nat, c: byte, ch: byte)
    requires IsFieldState(h) && FieldIndexFits(h, i) && i <= 17 && c != 0
    ensures var (h', i') := FieldNext(h, i, c, ch);
            IsFieldState(h') && FieldIndexFits(h', i') && i' <= 17
  {
  }

  lemma ConnectionTokens(c: byte)
    ensures var h := ConnectionToken(c);
            h.MatchingConnectionKeepAlive? || h.MatchingConnectionClose? || h.MatchingConnectionUpgrade? ||
            h.MatchingConnectionToken?
  {
  }

  lemma ValueNextIndex(p: Parser, ch: byte)
    requires ValueIndexFits(p.headerState, p.index) && p.index <= 17
    requires !p.headerState.Connection? && !p.headerState.TransferEncoding?
    ensures var q := ValueNext(p, ch);
            && ValueIndexFits(q.headerState, q.index) && q.index <= 17
            && !q.headerState.Connection? && !q.headerState.TransferEncoding?
  {
    hide Lower, StrictToken, MatchMore, ConnectionToken;
    ConnectionTokens(Lower(ch));
  }

  /** A character of a value touches flags, header state and index only. */
  lemma ValueNextFrame(p: Parser, ch: byte)
    ensures var q := ValueNext(p, ch);
            && q.flags.chunked == p.flags.chunked
            && q == p.(flags := q.flags, headerState := q.headerState, index := q.index)
  {
    hide Lower, StrictToken, MatchMore, ConnectionToken;
  }

  lemma ValueNextIsSafe(p: Parser, ch: byte)
    requires p.state.HeaderValue? && Inv(p)
    ensures Inv(ValueNext(p, ch)) && ValueNext(p, ch).state.HeaderValue?
  {
    hide ValueNext, MethodString, ValueIndexFits, FieldIndexFits, IsFieldState;
    ValueNextIndex(p, ch);
    ValueNextFrame(p, ch);
  }

  lemma FieldIsSafe(p: Parser, ch: byte)
    requires Inv(p) && p.state.HeaderField?
    ensures CaseIsSafe(p, FieldCase(p, ch))
  {
    if Token(ch) != 0 {
      FieldNextIsSafe(p.headerState, p.index, Token(ch), ch);
    }
    hide FieldNext, Token, IsFieldState, FieldIndexFits, ValueIndexFits, MethodString;
  }

  lemma FieldStartIsSafe(p: Parser, ch: byte)
    requires Inv(p) && p.state.HeaderFieldStart?
    ensures CaseIsSafe(p, FieldStartCase(p, ch))
  {
    hide Token, ValueIndexFits, MethodString;
  }

  lemma ValueIsSafe(p: Parser, ch: byte)
    requires Inv(p) && p.state.HeaderValue?
    ensures CaseIsSafe(p, ValueCase(p, ch))
  {
    if !p.headerState.ContentLength? {
      ValueNextIsSafe(p, ch);
    }
    hide ValueNext, IsFieldState, FieldIndexFits, MethodString;
  }

  lemma ValueStartIsSafe(p: Parser, ch: byte)
    requires Inv(p) && (p.state.HeaderValueStart? || p.state.HeaderValueDiscardWs?)
    ensures CaseIsSafe(p, ValueStartCase(p, ch))
  {
    hide IsFieldState, FieldIndexFits, MethodString, Lower;
  }

  lemma HeaderIsHarmless(p: Parser, ch: byte)
    requires p.index <= 17 && Phase(p.state).HeaderPart? && !p.state.HeaderField? && !p.state.HeaderFieldStart?
    requires !p.state.HeaderValue? && !p.state.HeaderValueStart? && !p.state.HeaderValueDiscardWs?
    ensures Harmless(p, HeaderCase(p, ch))
  {
    hide FieldCase, FieldStartCase, ValueCase, ValueStartCase;
  }

  lemma HeaderIsSafe(p: Parser, ch: byte)
    requires Inv(p) && Phase(p.state).HeaderPart?
    ensures CaseIsSafe(p, HeaderCase(p, ch))
  {
    if p.state.HeaderField? {
      FieldIsSafe(p, ch);
    } else if p.state.HeaderFieldStart? {
      FieldStartIsSafe(p, ch);
    } else if p.state.HeaderValue? {
      ValueIsSafe(p, ch);
    } else if p.state.HeaderValueStart? || p.state.HeaderValueDiscardWs? {
      ValueStartIsSafe(p, ch);
    } else {
      HeaderIsHarmless(p, ch);
      HarmlessIsSafe(p, HeaderCase(p, ch));
    }
    hide FieldCase, FieldStartCase, ValueCase, ValueStartCase, CaseIsSafe;
  }

  lemma BodyIsSafe(p: Parser, ch: byte)
    requires Inv(p) && Phase(p.state).BodyPart?
    ensures CaseIsSafe(p, BodyCase(p, ch))
  {
    hide MethodString, IsFieldState, FieldIndexFits, ValueIndexFits, NeedsEof;
  }

  lemma CaseKeepsInv(p: Parser, ch: byte)
    requires Inv(p)
    ensures CaseIsSafe(p, CaseOf(p, ch))
  {
    hide CaseIsSafe, Inv, StatusLineCase, RequestLineCase, UrlCase, HeaderCase, BodyCase;
    match Phase(p.state)
    case StatusPart => StatusLineIsSafe(p, ch);
    case RequestPart => RequestLineIsSafe(p, ch);
    case UrlPart => UrlIsSafe(p, ch);
    case HeaderPart => HeaderIsSafe(p, ch);
    case BodyPart => BodyIsSafe(p, ch);
  }

  // ---------- every byte, every run ----------

  /** The assertions of the source hold wherever the invariant does. */
  lemma AssertionsFollow(p: Parser, nread: nat)
    requires Inv(p) && (p.state.ChunkSizeStart? ==> nread == 1)
    ensures AssertionsHold(p, nread)
  {
    hide MethodString, FieldIndexFits, ValueIndexFits, IsFieldState;
  }

  /** No assertion fails while a byte is looked at, however often REEXECUTE() jumps. */
  predicate SwitchIsSafe(policy: Policy, m: Machine, ch: byte)
    decreases Rank(m.p.state)
  {
    && AssertionsHold(m.p, m.nread)
    && var (n, signal) := Perform(policy, m, CaseOf(m.p, ch), ch);
       !CaseOf(m.p, ch).next.Abort? && (signal.Again? ==> SwitchIsSafe(policy, n, ch))
  }

  lemma NotifiedKeepsInv(p: Parser, note: Note, a: Answer)
    requires Inv(p)
    ensures Inv(Notified(p, note, a)) && Notified(p, note, a).state == p.state
  {
    hide MethodString, IsFieldState, FieldIndexFits, ValueIndexFits;
  }

  lemma PerformKeepsInv(policy: Policy, m: Machine, k: Case, ch: byte)
    requires CaseIsSafe(m.p, k) && (k.next.Fail? ==> k.fire.Silent?)
    ensures var (n, signal) := Perform(policy, m, k, ch);
            if signal == Done(Failed) then IsParseError(n.errno)
            else Inv(n.p) && (n.p.state.ChunkSizeStart? ==> n.nread == 0)
  {
    hide Inv, Prepare, Emit, NoteErrno, Notified;
    if !k.next.Fail? && k.fire.Fire? {
      var m2 := Prepare(m, k, ch);
      NotifiedKeepsInv(m2.p, k.fire.note, policy(Emit(m2.trace, Notify(k.fire.note, m2.p))));
    }
  }

  lemma {:induction false} SwitchKeepsInv(policy: Policy, m: Machine, ch: byte)
    requires Inv(m.p) && (m.p.state.ChunkSizeStart? ==> m.nread == 1)
    ensures SwitchIsSafe(policy, m, ch)
    ensures var (n, outcome) := Switch(policy, m, ch);
            if outcome.Failed? then IsParseError(n.errno) else Inv(n.p) && NreadFits(n.p, n.nread)
    decreases Rank(m.p.state)
  {
    hide CaseOf, Perform, Inv, AssertionsHold;
    var k := CaseOf(m.p, ch);
    CaseKeepsInv(m.p, ch);
    assert k.next.Fail? ==> k.fire.Silent? by { HttpSplit.CaseMarks(m.p, ch); }
    AssertionsFollow(m.p, m.nread);
    PerformKeepsInv(policy, m, k, ch);
    var (n, signal) := Perform(policy, m, k, ch);
    if signal.Again? {
      assert !n.p.state.ChunkSizeStart? by { NoJumpToChunkSize(m.p, ch); }
      SwitchKeepsInv(policy, n, ch);
    }
  }

  lemma NoJumpToChunkSize(p: Parser, ch: byte)
    ensures CaseOf(p, ch).next.Reexec? ==> !CaseOf(p, ch).p.state.ChunkSizeStart?
  {
  }

  lemma StepKeepsInv(policy: Policy, m: Machine, ch: byte)
    requires Inv(m.p) && NreadFits(m.p, m.nread)
    ensures var (n, outcome) := Step(policy, m, ch); outcome.Running? ==> Inv(n.p) && NreadFits(n.p, n.nread)
  {
    hide Switch, SwitchIsSafe, Inv;
    SwitchKeepsInv(policy, Count(m), ch);
  }

  /** No assertion fails in a run over a buffer. */
  predicate RunIsSafe(policy: Policy, m: Machine, data: seq<byte>)
    decreases |data|
  {
    data != [] ==>
      && SwitchIsSafe(policy, Count(m), data[0])
      && var (n, outcome) := Step(policy, m, data[0]);
         outcome.Running? ==> RunIsSafe(policy, n, data[1..])
  }

  /** From a parser that satisfies the invariant no run reaches a failing assertion, and the
      parser satisfies the invariant again wherever it does not report an error. */
  lemma {:induction false} RunKeepsInv(policy: Policy, m: Machine, data: seq<byte>)
    requires Inv(m.p) && NreadFits(m.p, m.nread)
    ensures RunIsSafe(policy, m, data)
    ensures var r := Run(policy, m, data);
            if r.outcome.Failed? then IsParseError(r.m.errno) else Inv(r.m.p) && NreadFits(r.m.p, r.m.nread)
    decreases |data|
  {
    hide Switch, SwitchIsSafe, Inv;
    if data != [] {
      SwitchKeepsInv(policy, Count(m), data[0]);
      var (n, outcome) := Step(policy, m, data[0]);
      if outcome.Running? {
        RunKeepsInv(policy, n, data[1..]);
      }
    }
  }

  /** http_parser_init establishes the invariant. */
  lemma InitialParserIsSafe(typ: ParserType)
    ensures Inv(InitialParser(typ)) && NreadFits(InitialParser(typ), 0)
  {
  }
}
