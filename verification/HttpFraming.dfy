/** Message framing: what the callbacks report between the beginning and the end of a
    message, and that no byte of a body is lost, added or reported twice. */
module HttpFraming {
  import opened Common
  import opened HttpTypes
  import opened HttpCases
  import opened HttpMachine
  import opened HttpSplit
  import opened HttpInvariant
  import opened HttpLimit
  import opened HttpCounting

  // ---------- the grammar of traces ----------

  /** Where a trace stands: between messages, before a status line whose message was begun by a line
      end, in the header, after on_headers_complete, in a body of known length or up to the end of
      the stream, after that end, in a chunk, after one, after the last one, and after the trailer.
      Broken is a trace that no message can have. */
  datatype Frame =
    | Start | Early | Head | Announced(seen: Parser)
    | Identity(total: nat, got: nat) | UntilEof | Over
    | Chunk(total: nat, got: nat) | AfterChunk | Trailer | AfterTrailer
    | Broken

  /** The message has no body whatever its header says: on_headers_complete said so, or
      what follows is no longer HTTP. */
  predicate Skipped(seen: Parser) {
    seen.flags.skipBody || (seen.upgrade && seen.verb.CONNECT?)
  }

  function BodyData(f: Frame, n: nat): Frame {
    match f
    case Announced(seen) =>
      if seen.flags.chunked then Broken
      else if seen.contentLength == ULLONG_MAX then if NeedsEof(seen) then UntilEof else Broken
      else if seen.contentLength == 0 then Broken
      else if n <= seen.contentLength then Identity(seen.contentLength, n) else Broken
    case Identity(total, got) => if got + n <= total then Identity(total, got + n) else Broken
    case UntilEof => UntilEof
    case Over => UntilEof
    case Chunk(total, got) => if got + n <= total then Chunk(total, got + n) else Broken
    case _ => Broken
  }

  /** on_headers_complete saw p, except for what it decided itself. */
  predicate AnnouncedBy(f: Frame, p: Parser) {
    f.Announced? && !f.seen.flags.skipBody && f.seen.(state := p.state, flags := f.seen.flags.(skipBody := p.flags.skipBody)) == p
  }

  function MessageEnd(f: Frame, seen: Parser): Frame {
    match f
    case Announced(before) =>
      if seen.state.BodyIdentityEof? then if NeedsEof(before) then Over else Broken
      else if (Skipped(seen) || !HasBody(seen)) && AnnouncedBy(f, seen) then Start else Broken
    case Identity(total, got) => if got == total && !Skipped(seen) && !seen.state.BodyIdentityEof? then Start else Broken
    case UntilEof => if seen.state.BodyIdentityEof? then Over else Broken
    case Over => if seen.state.BodyIdentityEof? then Over else Broken
    case AfterTrailer => if seen.state.BodyIdentityEof? then Broken else Start
    case _ => Broken
  }

  /** One event: a message is begun once, except that line ends before a status line begin it too;
      headers are complete once per message, a body of known length ends exactly
      when it is complete, and chunks are announced and completed in turn, the last one of
      size 0 and followed by the trailer. */
  function Next(f: Frame, e: Event): Frame {
    match e
    case Data(kind, bytes) =>
      if kind.Body? then BodyData(f, |bytes|)
      else if f.Head? || f.Trailer? then f else Broken
    case Notify(note, seen) =>
      match note
      case MessageBegin =>
        if !f.Start? && !f.Early? then Broken else if seen.state.StartRes? then Early else Head
      case HeadersComplete => if f.Head? then Announced(seen) else Broken
      case MessageComplete => MessageEnd(f, seen)
      case ChunkHeader =>
        if f.AfterChunk? || (f.Announced? && f.seen.flags.chunked) then
          if seen.contentLength == 0 then Trailer else Chunk(seen.contentLength, 0)
        else Broken
      case ChunkComplete =>
        if f.Chunk? && f.got == f.total then AfterChunk
        else if f.Trailer? then AfterTrailer
        else Broken
  }

  function FrameOf(trace: seq<Event>): Frame {
    if trace == [] then Start else Next(FrameOf(trace[..|trace|-1]), trace[|trace|-1])
  }

  lemma NextJoins(f: Frame, k: DataKind, x: seq<byte>, y: seq<byte>)
    ensures Next(Next(f, Data(k, x)), Data(k, y)) == Next(f, Data(k, x + y))
  {
  }

  lemma FrameOfEmit(trace: seq<Event>, e: Event)
    ensures FrameOf(Emit(trace, e)) == Next(FrameOf(trace), e)
  {
    hide Next;
    var n := |trace|;
    if e.Data? && n > 0 && trace[n-1].Data? && trace[n-1].kind == e.kind {
      NextJoins(FrameOf(trace[..n-1]), e.kind, trace[n-1].bytes, e.bytes);
      assert Emit(trace, e)[..n-1] == trace[..n-1];
    } else {
      assert (trace + [e])[..n] == trace;
    }
  }

  // ---------- the frame that belongs to a parser ----------

  /** The states that read a header line, or the line before it. */
  predicate InHead(s: State) {
    ParsingHeader(s) && !InChunk(s) && !s.HeadersDone? && !s.Dead? &&
    !s.StartReq? && !s.StartRes? && !s.StartReqOrRes?
  }

  predicate FrameFits(p: Parser, f: Frame) {
    var s := p.state;
    && !f.Broken?
    && (s.StartReq? || s.StartReqOrRes? ==> f.Start?)
    && (s.StartRes? ==> f.Start? || f.Early?)
    && (InHead(s) ==> if p.flags.trailing then f.Trailer? else f.Head?)
    && (InHead(s) || InChunk(s) || s.BodyIdentity? || s.BodyIdentityEof? ==> !p.flags.skipBody)
    && (s.HeadersDone? ==> AnnouncedBy(f, p))
    && (s.ChunkSizeStart? || s.ChunkSize? || s.ChunkParameters? || s.ChunkSizeAlmostDone? ==>
          f.AfterChunk? || (f.Announced? && f.seen.flags.chunked))
    && (s.ChunkData? || s.ChunkDataAlmostDone? || s.ChunkDataDone? ==>
          f.Chunk? && f.total == f.got + p.contentLength)
    && (s.ChunkDataDone? ==> p.contentLength == 0)
    && (s.BodyIdentity? ==>
          && !p.flags.chunked && !Skipped(p)
          && (AnnouncedBy(f, p) || (f.Identity? && f.total == f.got + p.contentLength)))
    && (s.BodyIdentityEof? ==>
          NeedsEof(p) && (AnnouncedBy(f, p) || f.UntilEof? || f.Over?))
    && (s.MessageDone? ==> (f.Identity? && f.got == f.total && !Skipped(p)) || f.AfterTrailer?)
  }

  // ---------- every case keeps the frame ----------

  /** The frame after the data that a case reports or begins to collect. */
  function Midway(f: Frame, k: Case, ch: byte, closed: bool): Frame {
    if k.close.CloseAfter? then Next(f, Data(k.close.kind, [ch]))
    else if k.mark.Some? && closed then Next(f, Data(k.mark.value, []))
    else f
  }

  function Fired(f: Frame, k: Case): Frame {
    if k.fire.Fire? then Next(f, Notify(k.fire.note, k.p)) else f
  }

  /** The frame once the byte itself is collected, if a mark is set. */
  function Landed(f: Frame, open: Option<DataKind>, ch: byte): Frame {
    if open.Some? then Next(f, Data(open.value, [ch])) else f
  }

  /** The mark after a case, where open tells whether the mark of state s was set. */
  function MarkAfter(s: State, k: Case, open: bool): Option<DataKind> {
    if !k.close.NoClose? then None
    else if k.mark.Some? then k.mark
    else if open then CollectedIn(s) else None
  }

  predicate FrameKept(p: Parser, k: Case, f: Frame, ch: byte, open: bool) {
    var g := Fired(Midway(f, k, ch, !open), k);
    && (k.fire.Fire? || k.next.Reexec? || k.next.Exit? ==> FrameFits(k.p, g))
    && (k.next.Advance? ==> FrameFits(k.p, Landed(g, MarkAfter(p.state, k, open), ch)))
  }

  predicate OpenFits(s: State, open: bool) {
    (open ==> CollectedIn(s).Some?) && (Reopen(s).Open? ==> open)
  }

  lemma UrlFrame(p: Parser, f: Frame, ch: byte, open: bool)
    requires FrameFits(p, f) && OpenFits(p.state, open) && Phase(p.state).UrlPart?
    ensures FrameKept(p, UrlCase(p, ch), f, ch, open)
  {
    hide UrlNext, AnnouncedBy, NeedsEof, BodyData, MessageEnd;
  }

  /** The cases of a header line stay in the header, or in the trailer. */
  predicate StaysInHead(p: Parser, k: Case) {
    && k.fire.Silent? && !k.next.Exit? && k.mark != Some(Body) && !k.close.CloseAfter?
    && (k.next.Advance? || k.next.Reexec? ==>
          && InHead(k.p.state)
          && k.p.flags.trailing == p.flags.trailing && k.p.flags.skipBody == p.flags.skipBody)
  }

  lemma HeaderStays(p: Parser, ch: byte)
    requires Phase(p.state).HeaderPart? && !p.state.HeadersAlmostDone?
    ensures StaysInHead(p, HeaderCase(p, ch))
  {
    hide StaysInHead, HeaderCase;
    if p.state.HeaderFieldStart? || p.state.HeaderField? {
      NameStays(p, ch);
    } else {
      ValueStays(p, ch);
    }
  }

  lemma NameStays(p: Parser, ch: byte)
    requires p.state.HeaderFieldStart? || p.state.HeaderField?
    ensures StaysInHead(p, HeaderCase(p, ch))
  {
    hide FieldNext, FieldFirst, Token;
  }

  lemma ValueStays(p: Parser, ch: byte)
    requires Phase(p.state).HeaderPart? && !p.state.HeadersAlmostDone?
    requires !p.state.HeaderFieldStart? && !p.state.HeaderField?
    ensures StaysInHead(p, HeaderCase(p, ch))
  {
    hide FieldStartCase, FieldCase, AddLengthDigit, ValueNext, ValueFlags, ValueStartCase;
    if p.state.HeaderValueDiscardWs? || p.state.HeaderValueStart? {
      ValueStartStays(p, ch);
    }
  }

  lemma ValueStartStays(p: Parser, ch: byte)
    ensures var k := ValueStartCase(p, ch);
            && k.fire.Silent? && k.mark == Some(Value) && k.close.NoClose? && !k.next.Exit? && !k.next.Reexec?
            && k.p.state.HeaderValue? && k.p.flags.trailing == p.flags.trailing && k.p.flags.skipBody == p.flags.skipBody
  {
    hide ConnectionToken, Lower;
  }

  lemma StayingInHead(p: Parser, k: Case, f: Frame, ch: byte, open: bool)
    requires FrameFits(p, f) && OpenFits(p.state, open) && InHead(p.state) && StaysInHead(p, k)
    ensures FrameKept(p, k, f, ch, open)
  {
    hide AnnouncedBy, NeedsEof, BodyData, MessageEnd;
  }

  lemma LineStartFrame(p: Parser, f: Frame, ch: byte, open: bool)
    requires FrameFits(p, f) && OpenFits(p.state, open) && StartsLine(p.state)
    ensures FrameKept(p, StatusLineCase(p, ch), f, ch, open)
  {
    hide AddDigit, AnnouncedBy, NeedsEof, BodyData, MessageEnd;
  }

  lemma StatusStays(p: Parser, ch: byte)
    requires Phase(p.state).StatusPart? && !StartsLine(p.state)
    ensures InHead(p.state) && StaysInHead(p, StatusLineCase(p, ch))
  {
    hide AddDigit, StartReqOrResCase, ResOrRespHCase, StartResCase;
  }

  lemma StatusLineFrame(p: Parser, f: Frame, ch: byte, open: bool)
    requires FrameFits(p, f) && OpenFits(p.state, open) && Phase(p.state).StatusPart?
    ensures FrameKept(p, StatusLineCase(p, ch), f, ch, open)
  {
    hide FrameKept, FrameFits, StatusLineCase, StaysInHead;
    if StartsLine(p.state) {
      LineStartFrame(p, f, ch, open);
    } else {
      StatusStays(p, ch);
      StayingInHead(p, StatusLineCase(p, ch), f, ch, open);
    }
  }

  lemma RequestStartFrame(p: Parser, f: Frame, ch: byte, open: bool)
    requires FrameFits(p, f) && OpenFits(p.state, open) && (p.state.Dead? || p.state.StartReq?)
    ensures FrameKept(p, RequestLineCase(p, ch), f, ch, open)
  {
    hide FirstMethod, AnnouncedBy, NeedsEof, BodyData, MessageEnd;
  }

  lemma RequestStays(p: Parser, ch: byte)
    requires Phase(p.state).RequestPart? && !p.state.Dead? && !p.state.StartReq?
    ensures InHead(p.state) && StaysInHead(p, RequestLineCase(p, ch))
  {
    hide MethodCase, SpacesBeforeUrlCase, MajorCase, MinorDigitCase, StartReqCase, StaysInHead;
    if p.state.ReqMethod? {
      MethodStays(p, ch);
    } else if p.state.ReqSpacesBeforeUrl? {
      SpacesStay(p, ch);
    } else {
      VersionStays(p, ch);
    }
  }

  lemma MethodStays(p: Parser, ch: byte)
    requires p.state.ReqMethod?
    ensures StaysInHead(p, RequestLineCase(p, ch))
  {
    hide OtherMethod, MethodString, CharAt;
  }

  lemma SpacesStay(p: Parser, ch: byte)
    requires p.state.ReqSpacesBeforeUrl?
    ensures StaysInHead(p, RequestLineCase(p, ch))
  {
    hide UrlNext;
    UrlStays(if p.verb.CONNECT? then ReqServerStart else ReqSpacesBeforeUrl, ch);
  }

  lemma UrlStays(s: State, ch: byte)
    requires s.ReqServerStart? || s.ReqSpacesBeforeUrl?
    ensures var t := UrlNext(s, ch); t.Dead? || InHead(t)
  {
  }

  lemma VersionStays(p: Parser, ch: byte)
    requires Phase(p.state).RequestPart? && !p.state.Dead? && !p.state.StartReq?
    requires !p.state.ReqMethod? && !p.state.ReqSpacesBeforeUrl?
    ensures StaysInHead(p, RequestLineCase(p, ch))
  {
    hide MethodCase, SpacesBeforeUrlCase, AddDigit, StartReqCase;
  }

  lemma RequestLineFrame(p: Parser, f: Frame, ch: byte, open: bool)
    requires FrameFits(p, f) && OpenFits(p.state, open) && Phase(p.state).RequestPart?
    ensures FrameKept(p, RequestLineCase(p, ch), f, ch, open)
  {
    hide FrameKept, FrameFits, RequestLineCase, StaysInHead;
    if p.state.Dead? || p.state.StartReq? {
      RequestStartFrame(p, f, ch, open);
    } else {
      RequestStays(p, ch);
      StayingInHead(p, RequestLineCase(p, ch), f, ch, open);
    }
  }

  lemma HeaderFrame(p: Parser, f: Frame, ch: byte, open: bool)
    requires FrameFits(p, f) && OpenFits(p.state, open) && Phase(p.state).HeaderPart?
    ensures FrameKept(p, HeaderCase(p, ch), f, ch, open)
  {
    if p.state.HeadersAlmostDone? {
      hide BodyData;
    } else {
      HeaderStays(p, ch);
      StayingInHead(p, HeaderCase(p, ch), f, ch, open);
      hide FrameKept, FrameFits, HeaderCase, StaysInHead;
    }
  }

  lemma HeadersDoneFrame(p: Parser, f: Frame, ch: byte, open: bool)
    requires FrameFits(p, f) && OpenFits(p.state, open) && p.state.HeadersDone? && Inv(p)
    ensures FrameKept(p, HeadersDoneCase(p), f, ch, open)
  {
    hide MethodString, IsFieldState, FieldIndexFits, ValueIndexFits, BodyData;
  }

  lemma ChunkFrame(p: Parser, f: Frame, ch: byte, open: bool)
    requires FrameFits(p, f) && OpenFits(p.state, open) && InChunk(p.state) && Inv(p)
    ensures FrameKept(p, BodyCase(p, ch), f, ch, open)
  {
    hide FrameKept, FrameFits, BodyCase, Inv;
    if p.state.ChunkData? || p.state.ChunkDataAlmostDone? || p.state.ChunkDataDone? {
      ChunkDataFrame(p, f, ch, open);
    } else {
      ChunkSizeFrame(p, f, ch, open);
    }
  }

  lemma ChunkDataFrame(p: Parser, f: Frame, ch: byte, open: bool)
    requires FrameFits(p, f) && OpenFits(p.state, open) && Inv(p)
    requires p.state.ChunkData? || p.state.ChunkDataAlmostDone? || p.state.ChunkDataDone?
    ensures FrameKept(p, BodyCase(p, ch), f, ch, open)
  {
    hide MethodString, IsFieldState, FieldIndexFits, ValueIndexFits, AnnouncedBy, NeedsEof, MessageEnd;
  }

  lemma ChunkSizeFrame(p: Parser, f: Frame, ch: byte, open: bool)
    requires FrameFits(p, f) && OpenFits(p.state, open) && InChunk(p.state) && Inv(p)
    requires !p.state.ChunkData? && !p.state.ChunkDataAlmostDone? && !p.state.ChunkDataDone?
    ensures FrameKept(p, BodyCase(p, ch), f, ch, open)
  {
    hide MethodString, IsFieldState, FieldIndexFits, ValueIndexFits, AddChunkDigit, AnnouncedBy, NeedsEof, MessageEnd,
         Unhex;
  }

  lemma IdentityFrame(p: Parser, f: Frame, ch: byte, open: bool)
    requires FrameFits(p, f) && OpenFits(p.state, open) && Inv(p)
    requires p.state.BodyIdentity? || p.state.BodyIdentityEof? || p.state.MessageDone?
    ensures FrameKept(p, BodyCase(p, ch), f, ch, open)
  {
    hide MethodString, IsFieldState, FieldIndexFits, ValueIndexFits;
  }

  lemma BodyFrame(p: Parser, f: Frame, ch: byte, open: bool)
    requires FrameFits(p, f) && OpenFits(p.state, open) && Phase(p.state).BodyPart? && Inv(p)
    ensures FrameKept(p, BodyCase(p, ch), f, ch, open)
  {
    if p.state.HeadersDone? {
      HeadersDoneFrame(p, f, ch, open);
    } else if InChunk(p.state) {
      ChunkFrame(p, f, ch, open);
    } else {
      IdentityFrame(p, f, ch, open);
    }
    hide FrameKept, FrameFits, Inv, HeadersDoneCase;
  }

  lemma CaseKeepsFrame(p: Parser, f: Frame, ch: byte, open: bool)
    requires FrameFits(p, f) && OpenFits(p.state, open) && Inv(p)
    ensures FrameKept(p, CaseOf(p, ch), f, ch, open)
  {
    hide FrameKept, FrameFits, Inv, StatusLineCase, RequestLineCase, UrlCase, HeaderCase, BodyCase;
    match Phase(p.state)
    case StatusPart => StatusLineFrame(p, f, ch, open);
    case RequestPart => RequestLineFrame(p, f, ch, open);
    case UrlPart => UrlFrame(p, f, ch, open);
    case HeaderPart => HeaderFrame(p, f, ch, open);
    case BodyPart => BodyFrame(p, f, ch, open);
  }

  // ---------- bytes, buffers ----------

  function MachineFrame(m: Machine): Frame { FrameOf(Flushed(m)) }

  lemma PrepareFrame(m: Machine, k: Case, ch: byte)
    requires MarksFit(m.p.state, m.open) && MarkRules(m.p.state, k)
    ensures MachineFrame(Prepare(m, k, ch)) == Midway(MachineFrame(m), k, ch, m.open.Closed?)
  {
    hide FrameOf, Next, Emit, Reopen;
    var o := SetMark(m.open, k.mark);
    if o.Open? {
      FrameOfEmit(m.trace, Data(o.kind, o.bytes));
      FrameOfEmit(m.trace, Data(o.kind, o.bytes + [ch]));
      NextJoins(FrameOf(m.trace), o.kind, o.bytes, [ch]);
      assert [] + [ch] == [ch];
    }
  }

  lemma CollectFrame(m: Machine, ch: byte)
    ensures MachineFrame(Collect(m, ch)) ==
              Landed(MachineFrame(m), if m.open.Open? then Some(m.open.kind) else None, ch)
  {
    hide FrameOf, Next, Emit;
    if m.open.Open? {
      FrameOfEmit(m.trace, Data(m.open.kind, m.open.bytes));
      FrameOfEmit(m.trace, Data(m.open.kind, m.open.bytes + [ch]));
      NextJoins(FrameOf(m.trace), m.open.kind, m.open.bytes, [ch]);
    }
  }

  predicate CompletesHeaders(k: Case) { k.fire.Fire? && k.fire.note.HeadersComplete? }

  lemma NoLineCompletesHeaders(p: Parser, ch: byte)
    ensures Phase(p.state).StatusPart? ==> !CompletesHeaders(StatusLineCase(p, ch))
    ensures Phase(p.state).RequestPart? ==> !CompletesHeaders(RequestLineCase(p, ch))
  {
    hide AddDigit, UrlNext, OtherMethod, MethodString, CharAt, FirstMethod, Rank;
  }

  lemma OnlyAlmostDoneCompletesHeaders(p: Parser, ch: byte)
    ensures CompletesHeaders(CaseOf(p, ch)) ==> CaseOf(p, ch).p.state.HeadersDone?
  {
    hide StatusLineCase, RequestLineCase, FieldNext, FieldFirst, Token, Lower, ConnectionToken, AddLengthDigit,
         ValueNext, ValueFlags, UrlNext, Unhex, NeedsEof;
    NoLineCompletesHeaders(p, ch);
  }

  lemma NotifiedFits(p: Parser, f: Frame, note: Note, a: Answer)
    requires FrameFits(p, f) && (note.HeadersComplete? ==> p.state.HeadersDone?)
    ensures FrameFits(Notified(p, note, a), f)
  {
    hide NeedsEof;
  }

  lemma PerformFrame(policy: Policy, m: Machine, ch: byte)
    requires MarksFit(m.p.state, m.open) && Inv(m.p) && FrameFits(m.p, MachineFrame(m))
    ensures var (n, signal) := Perform(policy, m, CaseOf(m.p, ch), ch);
            && (signal.Again? || (signal.Done? && signal.outcome.Left?) ==> FrameFits(n.p, MachineFrame(n)))
            && (signal.Done? && !signal.outcome.Running? ==> n.open.Closed?)
            && (signal == Done(Failed) ==> n.trace == m.trace)
            && (signal == Done(Running) ==> FrameFits(n.p, MachineFrame(Collect(n, ch))))
  {
    hide CaseOf, FrameFits, Inv, FrameOf, Next, Emit, NoteErrno, Notified;
    var k := CaseOf(m.p, ch);
    CaseMarks(m.p, ch);
    CaseKeepsFrame(m.p, MachineFrame(m), ch, m.open.Open?);
    OnlyAlmostDoneCompletesHeaders(m.p, ch);
    PrepareFrame(m, k, ch);
    var n := Prepare(m, k, ch);
    if k.fire.Fire? {
      FrameOfEmit(n.trace, Notify(k.fire.note, n.p));
      NotifiedFits(n.p, Fired(Midway(MachineFrame(m), k, ch, m.open.Closed?), k), k.fire.note,
                   policy(Emit(n.trace, Notify(k.fire.note, n.p))));
    }
    CollectFrame(n, ch);
  }

  lemma BrokenStaysBroken(m: Machine)
    requires !MachineFrame(m).Broken?
    ensures !FrameOf(m.trace).Broken?
  {
    hide Emit;
    if m.open.Open? {
      FrameOfEmit(m.trace, Data(m.open.kind, m.open.bytes));
    }
  }

  /** What holds after a byte, a buffer or a call, by the way it ended. */
  ghost predicate FrameAfter(n: Machine, outcome: Outcome) {
    && (outcome.Running? ==> FrameFits(n.p, MachineFrame(n)))
    && (outcome.Left? ==> FrameFits(n.p, FrameOf(n.trace)))
    && !FrameOf(n.trace).Broken?
  }

  lemma {:induction false} SwitchFrame(policy: Policy, m: Machine, ch: byte)
    requires MarksFit(m.p.state, m.open) && Inv(m.p) && FrameFits(m.p, MachineFrame(m))
    requires m.p.state.ChunkSizeStart? ==> m.nread == 1
    ensures var (n, outcome) := Switch(policy, m, ch);
            FrameAfter(if outcome.Running? then Collect(n, ch) else n, outcome)
    decreases Rank(m.p.state)
  {
    hide CaseOf, Perform, FrameFits, FrameOf, Inv, MarksFit, Emit, Collect;
    PerformFrame(policy, m, ch);
    var (n, signal) := Perform(policy, m, CaseOf(m.p, ch), ch);
    FitsIsNotBroken(m.p, MachineFrame(m));
    BrokenStaysBroken(m);
    if signal.Again? {
      CaseMarks(m.p, ch);
      CaseKeepsInv(m.p, ch);
      NoJumpToChunkSize(m.p, ch);
      PerformKeepsMarks(policy, m, CaseOf(m.p, ch), ch);
      FailIsSilent(m.p, ch);
      PerformKeepsInv(policy, m, CaseOf(m.p, ch), ch);
      SwitchFrame(policy, n, ch);
    } else {
      if signal == Done(Running) {
        FitsIsNotBroken(n.p, MachineFrame(Collect(n, ch)));
        BrokenStaysBroken(Collect(n, ch));
      } else if signal != Done(Failed) {
        FitsIsNotBroken(n.p, MachineFrame(n));
      }
    }
  }

  lemma FitsIsNotBroken(p: Parser, f: Frame)
    requires FrameFits(p, f)
    ensures !f.Broken?
  {
  }

  lemma FailIsSilent(p: Parser, ch: byte)
    ensures CaseOf(p, ch).next.Fail? ==> CaseOf(p, ch).fire.Silent?
  {
    hide CaseOf;
    CaseMarks(p, ch);
  }

  lemma StepFrame(policy: Policy, m: Machine, ch: byte)
    requires MarksFit(m.p.state, m.open) && Inv(m.p) && NreadFits(m.p, m.nread)
    requires FrameFits(m.p, MachineFrame(m))
    ensures var (n, outcome) := Step(policy, m, ch); FrameAfter(n, outcome)
  {
    hide Switch, FrameFits, FrameOf, Inv, MarksFit, Emit, Collect, FrameAfter;
    SwitchFrame(policy, Count(m), ch);
  }

  lemma {:induction false} RunFrame(policy: Policy, m: Machine, data: seq<byte>)
    requires MarksFit(m.p.state, m.open) && Inv(m.p) && NreadFits(m.p, m.nread)
    requires FrameFits(m.p, MachineFrame(m))
    ensures var r := Run(policy, m, data); FrameAfter(r.m, r.outcome)
    decreases |data|
  {
    hide Step, FrameFits, FrameOf, Inv, MarksFit, Emit, NreadFits;
    if data == [] {
      FitsIsNotBroken(m.p, MachineFrame(m));
      BrokenStaysBroken(m);
    } else {
      StepFrame(policy, m, data[0]);
      var (n, outcome) := Step(policy, m, data[0]);
      if outcome.Running? {
        StepKeepsMarks(policy, m, data[0]);
        StepKeepsInv(policy, m, data[0]);
        RunFrame(policy, n, data[1..]);
      }
    }
  }

  // ---------- whole connections ----------

  /** What a user of the parser does: he passes on a buffer, or continues after a pause. */
  datatype Move = Pass(buf: seq<byte>) | Continue

  function Play(policy: Policy, s: Session, moves: seq<Move>): Session
    decreases |moves|
  {
    if moves == [] then s
    else
      var t := match moves[0]
        case Pass(buf) => Limited(policy, s, buf).after
        case Continue => if s.errno.Paused? then s.(errno := OK) else s;
      Play(policy, t, moves[1..])
  }

  ghost predicate SessionFits(s: Session) {
    && !FrameOf(s.trace).Broken?
    && (s.errno.OK? || s.errno.Paused? ==>
          Inv(s.p) && NreadFits(s.p, s.nread) && FrameFits(s.p, FrameOf(s.trace)))
  }

  lemma EnterFrame(s: Session)
    requires s.errno.OK? && SessionFits(s)
    ensures MarksFit(s.p.state, Enter(s).open)
    ensures FrameFits(s.p, MachineFrame(Enter(s)))
  {
    hide Inv, FrameOf, Emit, NeedsEof, MethodString;
    var m := Enter(s);
    if m.open.Open? {
      FrameOfEmit(s.trace, Data(m.open.kind, []));
    }
  }

  lemma ExecuteKeepsSession(policy: Policy, s: Session, buf: seq<byte>)
    requires SessionFits(s)
    ensures SessionFits(Execute(policy, s, buf).after)
  {
    hide Inv, FrameFits, FrameOf, Run, EndOfStream, Enter, NreadFits, IsParseError;
    if s.errno.OK? {
      if buf == [] {
        EndOfStreamFrame(policy, s);
      } else {
        EnterFrame(s);
        assert Enter(s).p == s.p && Enter(s).nread == s.nread by { EnterKeeps(s); }
        RunKeepsInv(policy, Enter(s), buf);
        RunFrame(policy, Enter(s), buf);
        ParseErrorStops(Run(policy, Enter(s), buf).m.errno);
        hide Flushed;
        FrameAfterLeave(Run(policy, Enter(s), buf));
      }
    }
  }

  /** The same with the limit on header bytes. */
  lemma LimitedKeepsSession(policy: Policy, s: Session, buf: seq<byte>)
    requires SessionFits(s)
    ensures SessionFits(Limited(policy, s, buf).after)
  {
    var call := Limited(policy, s, buf);
    hide Inv, FrameFits, FrameOf, Limited, Execute;
    if call.after.errno.HeaderOverflow? {
      OverflowIsFramed(policy, s, buf);
    } else {
      ExecuteKeepsSession(policy, s, buf);
      if s.errno.HeaderOverflow? {
        LimitedStops(policy, s, buf);
      } else {
        LimitedIsExecute(policy, s, buf);
        OnlyFailuresAreErrors(policy, s, buf);
        SurplusFits(policy, s, buf);
      }
    }
  }

  lemma LimitedStops(policy: Policy, s: Session, buf: seq<byte>)
    requires s.errno != OK
    ensures Limited(policy, s, buf).after == s
  {
  }

  /** What fails leaves an error behind. */
  lemma OnlyFailuresAreErrors(policy: Policy, s: Session, buf: seq<byte>)
    requires SessionFits(s)
    ensures Execute(policy, s, buf).outcome.Failed? ==> IsParseError(Execute(policy, s, buf).after.errno)
  {
    hide Inv, FrameFits, FrameOf, Run, NreadFits, Emit, Notified;
    if s.errno == OK && buf != [] {
      RunKeepsInv(policy, Enter(s), buf);
    }
  }

  /** The surplus count does not concern chunk sizes. */
  lemma SurplusFits(policy: Policy, s: Session, buf: seq<byte>)
    ensures Surplus(policy, s, buf) ==> !Execute(policy, s, buf).after.p.state.ChunkSizeStart?
  {
    hide Run;
  }

  lemma OverflowIsFramed(policy: Policy, s: Session, buf: seq<byte>)
    requires SessionFits(s) && Limited(policy, s, buf).after.errno.HeaderOverflow?
    ensures !FrameOf(Limited(policy, s, buf).after.trace).Broken?
  {
    hide Inv, FrameFits, FrameOf, Run, NreadFits, LimitAt, OnTheWay, EndOfStream, Enter;
    if s.errno == OK {
      if buf == [] {
        EndErrno(policy, s);
      } else {
        EnterFrame(s);
        EnterKeeps(s);
        OverflowOnTheWay(policy, Enter(s), buf, 0, None);
        assert buf[0..] == buf;
        OnTheWayIsFramed(policy, Enter(s), buf, Limited(policy, s, buf).after.trace);
      }
    }
  }

  lemma OnTheWayIsFramed(policy: Policy, m: Machine, data: seq<byte>, trace: seq<Event>)
    requires MarksFit(m.p.state, m.open) && Inv(m.p) && NreadFits(m.p, m.nread)
    requires FrameFits(m.p, MachineFrame(m)) && OnTheWay(policy, m, data, trace)
    ensures !FrameOf(trace).Broken?
  {
    hide Inv, FrameFits, FrameOf, Run, NreadFits, MarksFit;
    var j: nat :| j <= |data| && PassesBy(policy, m, data, j, trace);
    RunFrame(policy, m, data[..j]);
  }

  lemma EnterKeeps(s: Session)
    ensures Enter(s).p == s.p && Enter(s).nread == s.nread && Enter(s).errno == s.errno
  {
  }

  lemma ParseErrorStops(e: Errno)
    ensures IsParseError(e) ==> !e.OK? && !e.Paused?
  {
  }

  lemma FrameAfterLeave(r: RunResult)
    requires FrameAfter(r.m, r.outcome)
    ensures var s := Leave(r).after;
            !FrameOf(s.trace).Broken? && (!r.outcome.Failed? ==> FrameFits(s.p, FrameOf(s.trace)))
  {
    if r.outcome.Running? {
      FitsIsNotBroken(r.m.p, MachineFrame(r.m));
    }
    hide FrameFits, FrameOf, Emit;
  }

  lemma EndOfStreamFrame(policy: Policy, s: Session)
    requires s.errno.OK? && SessionFits(s)
    ensures SessionFits(EndOfStream(policy, s).after)
  {
    hide Inv, FrameOf, Emit, NoteErrno, MethodString;
    if s.p.state.BodyIdentityEof? {
      FrameOfEmit(s.trace, Notify(MessageComplete, s.p));
    }
  }

  /** Every connection reports properly framed messages: however its input is cut into buffers,
      whatever the callbacks answer, and wherever it is paused and continued. */
  lemma {:induction false} ConnectionsAreFramed(policy: Policy, s: Session, moves: seq<Move>)
    requires SessionFits(s)
    ensures SessionFits(Play(policy, s, moves))
    decreases |moves|
  {
    hide SessionFits, Limited;
    if moves != [] {
      match moves[0]
      case Pass(buf) =>
        LimitedKeepsSession(policy, s, buf);
        ConnectionsAreFramed(policy, Limited(policy, s, buf).after, moves[1..]);
      case Continue =>
        var t := if s.errno.Paused? then s.(errno := OK) else s;
        if s.errno.Paused? {
          ContinueKeepsSession(s);
        }
        ConnectionsAreFramed(policy, t, moves[1..]);
    }
  }

  lemma ContinueKeepsSession(s: Session)
    requires SessionFits(s) && s.errno.Paused?
    ensures SessionFits(s.(errno := OK))
  {
    hide Inv, FrameOf, FrameFits;
  }

  /** A new connection satisfies what ConnectionsAreFramed asks for. */
  lemma NewConnectionFits(typ: ParserType)
    ensures SessionFits(Session(InitialParser(typ), OK, 0, []))
  {
    InitialParserIsSafe(typ);
    hide Inv, MethodString;
  }

  // ---------- what is reported more than once ----------

  predicate IsNote(e: Event, note: Note) { e.Notify? && e.note == note }

  /** A case begins a message and goes on waiting for its first byte exactly if it reads a line end
      before a status line. */
  lemma BeginsAgain(p: Parser, ch: byte)
    ensures var k := CaseOf(p, ch);
            k.fire.Fire? && k.fire.note.MessageBegin? && k.p.state.StartRes? <==>
            p.state.StartRes? && (ch == CR || ch == LF)
  {
    hide AddDigit, UrlNext, OtherMethod, MethodString, CharAt, FirstMethod, Rank, HeaderCase, BodyCase, UrlCase;
    NoHeaderBegins(p, ch);
    NoBodyBegins(p, ch);
  }

  predicate Begins(k: Case) { k.fire.Fire? && k.fire.note.MessageBegin? }

  lemma NoHeaderBegins(p: Parser, ch: byte)
    ensures Phase(p.state).HeaderPart? ==> !Begins(HeaderCase(p, ch))
    ensures Phase(p.state).UrlPart? ==> !Begins(UrlCase(p, ch))
  {
    hide FieldNext, FieldFirst, Token, Lower, ConnectionToken, AddLengthDigit, ValueNext, ValueFlags, UrlNext, Rank;
  }

  lemma NoBodyBegins(p: Parser, ch: byte)
    ensures Phase(p.state).BodyPart? ==> !Begins(BodyCase(p, ch))
  {
    hide Unhex, NeedsEof, AddChunkDigit, HasBody, Rank;
  }

  /** The end of the stream reports something exactly if it ends a body, and leaves the parser as it
      is: the next end of the stream reports the same again. */
  lemma EndsAgain(policy: Policy, s: Session)
    requires s.errno.OK?
    ensures var t := EndOfStream(policy, s).after;
            && t.p == s.p
            && (t.trace != s.trace <==> s.p.state.BodyIdentityEof?)
            && (s.p.state.BodyIdentityEof? ==> t.trace == s.trace + [Notify(MessageComplete, s.p)])
  {
  }

  /** Any byte, on the other hand, is body data there, and leaves the parser as it is. */
  lemma {:induction false} ReadsToTheEnd(policy: Policy, m: Machine, data: seq<byte>)
    requires m.p.state.BodyIdentityEof? && (m.open.Open? ==> m.open.kind.Body?)
    ensures Run(policy, m, data) ==
              RunResult(if data == [] then m else m.(open := Open(Body, BytesOf(m.open) + data)), Running, |data|)
    decreases |data|
  {
    hide Step;
    if data != [] {
      BodyByteToTheEnd(policy, m, data[0]);
      var n := m.(open := Open(Body, BytesOf(m.open) + [data[0]]));
      ReadsToTheEnd(policy, n, data[1..]);
      assert BytesOf(m.open) + [data[0]] + data[1..] == BytesOf(m.open) + data;
      assert data[1..] == [] ==> [data[0]] == data;
    }
  }

  function BytesOf(o: Open): seq<byte> { if o.Open? then o.bytes else [] }

  lemma BodyByteToTheEnd(policy: Policy, m: Machine, ch: byte)
    requires m.p.state.BodyIdentityEof? && (m.open.Open? ==> m.open.kind.Body?)
    ensures Step(policy, m, ch) == (m.(open := Open(Body, BytesOf(m.open) + [ch])), Running)
  {
    assert CaseOf(m.p, ch) == Case(m.p, Advance, mark := Some(Body));
    hide CaseOf;
  }

  /** On every connection: an on_message_begin is followed by another one exactly if it was run by a
      line end before the status line. */
  lemma BegunAgain(policy: Policy, typ: ParserType, moves: seq<Move>, i: nat)
    requires var trace := Play(policy, Session(InitialParser(typ), OK, 0, []), moves).trace;
             i + 1 < |trace| && IsNote(trace[i], MessageBegin)
    ensures var trace := Play(policy, Session(InitialParser(typ), OK, 0, []), moves).trace;
            IsNote(trace[i+1], MessageBegin) <==> trace[i].seen.state.StartRes?
  {
    var trace := Play(policy, Session(InitialParser(typ), OK, 0, []), moves).trace;
    TwoFrames(policy, typ, moves, i);
    FollowsBegin(FrameOf(trace[..i]), trace[i], trace[i+1]);
    hide Play, FrameOf, Next;
  }

  /** On every connection: an on_message_complete is followed by the next on_message_begin exactly
      if it was not run by the end of the stream; otherwise by more of the body, or by itself. */
  lemma CompletedAgain(policy: Policy, typ: ParserType, moves: seq<Move>, i: nat)
    requires var trace := Play(policy, Session(InitialParser(typ), OK, 0, []), moves).trace;
             i + 1 < |trace| && IsNote(trace[i], MessageComplete)
    ensures var trace := Play(policy, Session(InitialParser(typ), OK, 0, []), moves).trace;
            var e := trace[i+1];
            && (IsNote(e, MessageBegin) <==> !trace[i].seen.state.BodyIdentityEof?)
            && (trace[i].seen.state.BodyIdentityEof? ==>
                  (e.Data? && e.kind.Body?) || (IsNote(e, MessageComplete) && e.seen.state.BodyIdentityEof?))
  {
    var trace := Play(policy, Session(InitialParser(typ), OK, 0, []), moves).trace;
    TwoFrames(policy, typ, moves, i);
    FollowsComplete(FrameOf(trace[..i]), trace[i], trace[i+1]);
    hide Play, FrameOf, Next;
  }

  lemma TwoFrames(policy: Policy, typ: ParserType, moves: seq<Move>, i: nat)
    requires i + 1 < |Play(policy, Session(InitialParser(typ), OK, 0, []), moves).trace|
    ensures var trace := Play(policy, Session(InitialParser(typ), OK, 0, []), moves).trace;
            !Next(Next(FrameOf(trace[..i]), trace[i]), trace[i+1]).Broken?
  {
    hide Play, Next, Inv, FrameFits;
    var s := Session(InitialParser(typ), OK, 0, []);
    NewConnectionFits(typ);
    ConnectionsAreFramed(policy, s, moves);
    var trace := Play(policy, s, moves).trace;
    PrefixIsFramed(trace, i + 2);
    assert trace[..i+2][..i+1] == trace[..i+1] && trace[..i+1][..i] == trace[..i];
  }

  lemma FollowsBegin(f: Frame, e: Event, next: Event)
    requires IsNote(e, MessageBegin) && !Next(Next(f, e), next).Broken?
    ensures IsNote(next, MessageBegin) <==> e.seen.state.StartRes?
  {
  }

  lemma FollowsComplete(f: Frame, e: Event, next: Event)
    requires IsNote(e, MessageComplete) && !Next(Next(f, e), next).Broken?
    ensures IsNote(next, MessageBegin) <==> !e.seen.state.BodyIdentityEof?
    ensures e.seen.state.BodyIdentityEof? ==>
              (next.Data? && next.kind.Body?) || (IsNote(next, MessageComplete) && next.seen.state.BodyIdentityEof?)
  {
  }

  /** A response behind a stray line end: its first two bytes begin it twice. */
  lemma StrayLineEnd()
    ensures var trace := Limited(Willing(), Session(InitialParser(Response), OK, 0, []), [LF, 'H' as int]).after.trace;
            |trace| == 2 && IsNote(trace[0], MessageBegin) && IsNote(trace[1], MessageBegin)
  {
    var m := Enter(Session(InitialParser(Response), OK, 0, []));
    var p := m.p.(contentLength := ULLONG_MAX);
    assert CaseOf(m.p, LF) == Case(p, Advance, fire := Fire(MessageBegin, true));
    assert CaseOf(p, 'H' as int) == Case(p.(state := ResH), Advance, fire := Fire(MessageBegin, true));
    hide CaseOf, LimitAt, ParsingHeader;
    var buf: seq<byte> := [LF, 'H' as int];
    BeginningByte(m, buf, 0, p);
    var n := BeginningAfter(m, p);
    BeginningByte(n, buf, 1, p.(state := ResH));
    AtTheEndOf(BeginningAfter(n, p.(state := ResH)), buf);
  }

  function BeginningAfter(m: Machine, p: Parser): Machine {
    m.(p := p, nread := m.nread + 1, trace := m.trace + [Notify(MessageBegin, p)])
  }

  lemma BeginningByte(m: Machine, buf: seq<byte>, i: nat, p: Parser)
    requires i < |buf| && m.open.Closed? && m.p.state.StartRes? && m.errno.OK? && m.nread < 10
    requires CaseOf(m.p, buf[i]) == Case(p, Advance, fire := Fire(MessageBegin, true))
    ensures LimitAt(Willing(), m, buf, i, None) == LimitAt(Willing(), BeginningAfter(m, p), buf, i + 1, None)
  {
    hide CaseOf;
    assert Switch(Willing(), Count(m), buf[i]) == (BeginningAfter(m, p), Running);
  }

  lemma AtTheEndOf(m: Machine, buf: seq<byte>)
    requires m.open.Closed?
    ensures LimitAt(Willing(), m, buf, |buf|, None) == Call(Session(m.p, m.errno, m.nread, m.trace), |buf|, Running)
  {
  }

  /** A session that reads a body up to the end of the stream; two ends complete it twice. */
  lemma EndedTwice()
    ensures var p := ReadingToTheEnd();
            var begun, done := Notify(MessageBegin, p.(state := ResH)), Notify(HeadersComplete, p.(state := HeadersDone));
            var s, end := Session(p, OK, 0, [begun, done]), Notify(MessageComplete, p);
            && SessionFits(s)
            && Play(Willing(), s, [Pass([]), Pass([])]).trace == [begun, done, end, end]
  {
    var p := ReadingToTheEnd();
    var begun, done := Notify(MessageBegin, p.(state := ResH)), Notify(HeadersComplete, p.(state := HeadersDone));
    var s := Session(p, OK, 0, [begun, done]);
    FrameOfTwo(begun, done);
    hide FrameOf;
    EndOfStreamIs(s);
    var t := s.(trace := s.trace + [Notify(MessageComplete, p)]);
    EndOfStreamIs(t);
    assert [Pass([]), Pass([])][1..] == [Pass([])];
    hide Limited;
  }

  lemma FrameOfTwo(d: Event, e: Event)
    ensures FrameOf([d, e]) == Next(Next(Start, d), e)
  {
    hide Next;
    assert [d, e][..1] == [d] && [d][..0] == [];
    assert FrameOf([d]) == Next(FrameOf([]), d);
  }

  function ReadingToTheEnd(): Parser {
    InitialParser(Response).(state := BodyIdentityEof, contentLength := ULLONG_MAX, major := 1, statusCode := 200)
  }

  lemma EndOfStreamIs(s: Session)
    requires s.errno.OK? && s.p.state.BodyIdentityEof?
    ensures Limited(Willing(), s, []).after == s.(trace := s.trace + [Notify(MessageComplete, s.p)])
  {
  }

  // ---------- no byte of a body is lost ----------

  /** The number of body bytes that the events report. */
  function BodyBytes(events: seq<Event>): nat {
    if events == [] then 0
    else
      var e := events[|events|-1];
      BodyBytes(events[..|events|-1]) + if e.Data? && e.kind.Body? then |e.bytes| else 0
  }

  /** The sum of the chunk sizes that the events announce. */
  function ChunkSizes(events: seq<Event>): nat {
    if events == [] then 0
    else
      var e := events[|events|-1];
      ChunkSizes(events[..|events|-1]) + if e.Notify? && e.note.ChunkHeader? then e.seen.contentLength else 0
  }

  /** The bytes reported since the header, by the frame they led to. */
  ghost predicate Balanced(a: Parser, f: Frame, events: seq<Event>) {
    match f
    case Announced(seen) => seen == a && BodyBytes(events) == 0 && ChunkSizes(events) == 0
    case Identity(total, got) => HasBody(a) && !a.flags.chunked && total == a.contentLength && BodyBytes(events) == got
    case UntilEof => !HasBody(a) && NeedsEof(a)
    case Chunk(total, got) => a.flags.chunked && BodyBytes(events) + (total - got) == ChunkSizes(events)
    case AfterChunk => a.flags.chunked && BodyBytes(events) == ChunkSizes(events)
    case Trailer => a.flags.chunked && BodyBytes(events) == ChunkSizes(events)
    case AfterTrailer => a.flags.chunked && BodyBytes(events) == ChunkSizes(events)
    case _ => false
  }

  ghost predicate EndsMessagePart(e: Event) {
    e.Notify? && (e.note.HeadersComplete? || e.note.MessageComplete?)
  }

  lemma BalancedStep(a: Parser, f: Frame, events: seq<Event>, e: Event)
    requires Balanced(a, f, events) && !Next(f, e).Broken? && !EndsMessagePart(e)
    ensures Balanced(a, Next(f, e), events + [e])
  {
    assert (events + [e])[..|events|] == events;
  }

  lemma {:induction false} BodyIsBalanced(trace: seq<Event>, i: nat, k: nat)
    requires i < k <= |trace| && !FrameOf(trace[..k]).Broken?
    requires trace[i].Notify? && trace[i].note.HeadersComplete?
    requires forall j | i < j < k :: !EndsMessagePart(trace[j])
    ensures Balanced(trace[i].seen, FrameOf(trace[..k]), trace[i+1..k])
    decreases k
  {
    hide Next, EndsMessagePart;
    assert trace[..k][..k-1] == trace[..k-1];
    if k == i + 1 {
      HeaderIsBalanced(FrameOf(trace[..i]), trace[i]);
    } else {
      assert !FrameOf(trace[..k-1]).Broken? by { BrokenIsFinal(FrameOf(trace[..k-1]), trace[k-1]); }
      BodyIsBalanced(trace, i, k - 1);
      assert trace[i+1..k] == trace[i+1..k-1] + [trace[k-1]];
      BalancedStep(trace[i].seen, FrameOf(trace[..k-1]), trace[i+1..k-1], trace[k-1]);
    }
  }

  lemma HeaderIsBalanced(f: Frame, e: Event)
    requires e.Notify? && e.note.HeadersComplete? && !Next(f, e).Broken?
    ensures Balanced(e.seen, Next(f, e), [])
  {
  }

  lemma BrokenIsFinal(f: Frame, e: Event)
    ensures f.Broken? ==> Next(f, e).Broken?
  {
  }

  /** Body conservation. Between on_headers_complete (event i) and the next on_message_complete
      (event j) of a framed trace, the body callbacks deliver exactly Content-Length bytes, or
      exactly the sum of the announced chunk sizes; nothing if the message ends with its header. */
  lemma BodyConservation(trace: seq<Event>, i: nat, j: nat)
    requires i < j < |trace| && !FrameOf(trace[..j+1]).Broken?
    requires trace[i].Notify? && trace[i].note.HeadersComplete?
    requires trace[j].Notify? && trace[j].note.MessageComplete?
    requires forall k | i < k < j :: !EndsMessagePart(trace[k])
    ensures var a, b := trace[i].seen, trace[j].seen;
            var body, sizes := BodyBytes(trace[i+1..j]), ChunkSizes(trace[i+1..j]);
            && (a.flags.chunked ==> body == sizes)
            && (!a.flags.chunked && HasBody(a) ==> body == if Skipped(b) then 0 else a.contentLength)
            && (!HasBody(a) && !NeedsEof(a) ==> body == 0)
  {
    assert trace[..j+1][..j] == trace[..j];
    BrokenIsFinal(FrameOf(trace[..j]), trace[j]);
    BodyIsBalanced(trace, i, j);
    hide FrameOf, BodyBytes, ChunkSizes, NeedsEof;
  }

  lemma {:induction false} PrefixIsFramed(trace: seq<Event>, k: nat)
    requires k <= |trace| && !FrameOf(trace).Broken?
    ensures !FrameOf(trace[..k]).Broken?
    decreases |trace|
  {
    hide Next;
    if k == |trace| {
      assert trace[..k] == trace;
    } else {
      var n := |trace| - 1;
      BrokenIsFinal(FrameOf(trace[..n]), trace[n]);
      PrefixIsFramed(trace[..n], k);
      assert trace[..n][..k] == trace[..k];
    }
  }

  /** No body byte is lost on any connection: whatever buffers a new parser is given, and wherever
      it is paused and continued, between on_headers_complete and the next on_message_complete it
      delivers what the header or the chunk headers announced. */
  lemma NoBodyByteIsLost(policy: Policy, typ: ParserType, moves: seq<Move>, i: nat, j: nat)
    requires var trace := Play(policy, Session(InitialParser(typ), OK, 0, []), moves).trace;
             && i < j < |trace|
             && trace[i].Notify? && trace[i].note.HeadersComplete?
             && trace[j].Notify? && trace[j].note.MessageComplete?
             && forall k | i < k < j :: !EndsMessagePart(trace[k])
    ensures var trace := Play(policy, Session(InitialParser(typ), OK, 0, []), moves).trace;
            var a, b := trace[i].seen, trace[j].seen;
            var body, sizes := BodyBytes(trace[i+1..j]), ChunkSizes(trace[i+1..j]);
            && (a.flags.chunked ==> body == sizes)
            && (!a.flags.chunked && HasBody(a) ==> body == if Skipped(b) then 0 else a.contentLength)
            && (!HasBody(a) && !NeedsEof(a) ==> body == 0)
  {
    hide Play, FrameOf, EndsMessagePart, BodyBytes, ChunkSizes, HasBody, NeedsEof, Inv, FrameFits;
    var s := Session(InitialParser(typ), OK, 0, []);
    NewConnectionFits(typ);
    ConnectionsAreFramed(policy, s, moves);
    var trace := Play(policy, s, moves).trace;
    PrefixIsFramed(trace, j + 1);
    BodyConservation(trace, i, j);
  }
}
