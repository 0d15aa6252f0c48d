/** http_parser_execute with its count of header bytes: the machine that reads one byte at a
    time, stopped where the source finds that there are more than HTTP_MAX_HEADER_SIZE. */
module HttpLimit {
  import opened Common
  import opened HttpTypes
  import opened HttpCases
  import opened HttpMachine

  /** What the loop over a header name or value began with: the header state and nread. */
  datatype Loop = Loop(headerState: HeaderState, nread: nat)

  predicate Bulk(s: State) { s.HeaderField? || s.HeaderValue? }

  predicate TooMany(n: nat) { n > MAX_HEADER_SIZE }

  predicate LineEnd(ch: byte) { ch == CR || ch == LF }

  /** memchr is asked for HTTP_MAX_HEADER_SIZE bytes and finds no line end: then the source goes
      to the end of the buffer, however long that is. */
  predicate SkipsAll(h: HeaderState, buf: seq<byte>, i: nat) {
    h.General? && i + MAX_HEADER_SIZE <= |buf| && forall j | i <= j < i + MAX_HEADER_SIZE :: !LineEnd(buf[j])
  }

  /** COUNT_HEADER_SIZE fails. What was collected is not reported. */
  function Overflow(p: Parser, nread: nat, trace: seq<Event>, count: nat): Call {
    Call(Session(p, HeaderOverflow, nread, trace), count, Failed)
  }

  /** Where a call leads whose next byte is number i. If loop is given, the call is inside the
      loop over a header name or value, which counts its bytes only at its end: one too many if
      it ends with the buffer. */
  function LimitAt(policy: Policy, m: Machine, buf: seq<byte>, i: nat, loop: Option<Loop>): Call
    requires i <= |buf|
    decreases |buf| - i, 2
  {
    if i == |buf| then
      if loop.Some? && TooMany(m.nread + 1) then Overflow(m.p, m.nread + 1, m.trace, i)
      else Call(Session(m.p, m.errno, if loop.Some? then m.nread + 1 else m.nread, Flushed(m)), i, Running)
    else if loop.None? && ParsingHeader(m.p.state) && TooMany(m.nread + 1) then
      Overflow(m.p, m.nread + 1, m.trace, i)
    else if Bulk(m.p.state) then
      LimitLoop(policy, m, buf, i, if loop.Some? then loop.value else Loop(m.p.headerState, m.nread + 1))
    else LimitResume(policy, Count(m), buf, i)
  }

  /** One byte of the loop over a header name or value. */
  function LimitLoop(policy: Policy, m: Machine, buf: seq<byte>, i: nat, loop: Loop): Call
    requires i < |buf|
    decreases |buf| - i, 1
  {
    var ch := buf[i];
    var (n, outcome) := Step(policy, m, ch);
    if m.p.state.HeaderField? && Token(ch) == 0 then
      if TooMany(m.nread + 1) then Overflow(m.p, m.nread + 1, m.trace, i)
      else LimitResume(policy, Count(m), buf, i)
    else if m.p.state.HeaderField? then LimitAt(policy, n, buf, i + 1, Some(loop))
    else if ch == CR then
      if TooMany(m.nread + 1) then Overflow(n.p, m.nread + 1, n.trace, i)
      else LimitResume(policy, Count(m), buf, i)
    else if ch == LF then
      if TooMany(m.nread + 1) then
        Overflow(m.p.(state := HeaderAlmostDone, headerState := loop.headerState), m.nread + 1, m.trace, i)
      else LimitResume(policy, Count(m), buf, i)
    else if SkipsAll(m.p.headerState, buf, i) then
      Overflow(m.p, m.nread + 1 + (|buf| - i), m.trace, |buf|)
    else if outcome.Running? then LimitAt(policy, n, buf, i + 1, Some(loop))
    else Call(Session(n.p, n.errno, loop.nread, n.trace), i, outcome)
  }

  /** Byte number i, once it is counted, from the label reexecute on. */
  function LimitResume(policy: Policy, m: Machine, buf: seq<byte>, i: nat): Call
    requires i < |buf|
    decreases |buf| - i, 0
  {
    var (n, outcome) := Switch(policy, m, buf[i]);
    if outcome.Running? then LimitAt(policy, Collect(n, buf[i]), buf, i + 1, None)
    else Call(Session(n.p, n.errno, n.nread, n.trace), if outcome == Left(true) then i + 1 else i, outcome)
  }

  /** One call of http_parser_execute. */
  function Limited(policy: Policy, c: Session, data: seq<byte>): Call {
    if c.errno != OK then Call(c, 0, Left(false))
    else if data == [] then EndOfStream(policy, c)
    else LimitAt(policy, Enter(c), data, 0, None)
  }

  /** A case that only changes the parser. */
  lemma PlainSwitch(policy: Policy, m: Machine, ch: byte)
    ensures var k := CaseOf(m.p, ch); k == Case(k.p, Advance) ==> Switch(policy, m, ch) == (m.(p := k.p), Running)
  {
    hide CaseOf, Emit, FireNote;
  }

  lemma PlainStep(policy: Policy, m: Machine, ch: byte)
    ensures var k := CaseOf(m.p, ch);
            k == Case(k.p, Advance) ==> Step(policy, m, ch) == (Collect(Count(m).(p := k.p), ch), Running)
  {
    hide CaseOf, Switch;
    PlainSwitch(policy, Count(m), ch);
  }

  lemma FailedStep(policy: Policy, m: Machine, ch: byte, e: ParseError)
    requires CaseOf(m.p, ch) == Error(m.p, e)
    ensures Step(policy, m, ch) == (Count(m).(errno := e, open := Closed), Failed)
  {
    hide CaseOf, Emit, FireNote;
  }
}
