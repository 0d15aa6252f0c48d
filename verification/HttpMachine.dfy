/** The parser as a machine that reads one byte at a time: the specification that
    the bulk loops of http_parser_execute have to refine. */
module HttpMachine {
  import opened Common
  import opened HttpTypes
  import opened HttpCases

  /** The data callback that is being collected: the bytes since the mark was set. */
  datatype Open = Closed | Open(kind: DataKind, bytes: seq<byte>)

  /** nread counts every header byte once; trace is what the callbacks have seen. */
  datatype Machine = Machine(p: Parser, errno: Errno, nread: nat, trace: seq<Event>, open: Open)

  /** Whether the loop over the buffer goes on, was left (and whether the byte
      counts as read), or failed on the byte. */
  datatype Outcome = Running | Left(consumed: bool) | Failed

  /** What a case leads to: the switch again with the same byte, or the end of the byte. */
  datatype Signal = Again | Done(outcome: Outcome)

  // ---------- callbacks ----------

  /** The error number that a notification leaves behind. */
  function NoteErrno(note: Note, a: Answer): Errno {
    if a.code >= (if note.HeadersComplete? then 2 else 1) then CallbackError(note)
    else if a.pause then Paused else OK
  }

  /** on_headers_complete may declare, by returning 1, that there is no body. */
  function Notified(p: Parser, note: Note, a: Answer): Parser {
    if note.HeadersComplete? && a.code == 1 then p.(flags := p.flags.(skipBody := true)) else p
  }

  function FireNote(policy: Policy, m: Machine, note: Note): Machine {
    var trace := Emit(m.trace, Notify(note, m.p));
    var a := policy(trace);
    m.(p := Notified(m.p, note, a), errno := NoteErrno(note, a), trace := trace)
  }

  function SetMark(o: Open, k: Option<DataKind>): Open {
    if k.Some? && o.Closed? then Open(k.value, []) else o
  }

  function CloseMark(m: Machine, c: Closing, ch: byte): (n: Machine)
    ensures n == m.(trace := n.trace, open := n.open)
  {
    if c.NoClose? || m.open.Closed? || m.open.kind != c.kind then m
    else
      var bytes := if c.CloseAfter? then m.open.bytes + [ch] else m.open.bytes;
      m.(trace := Emit(m.trace, Data(c.kind, bytes)), open := Closed)
  }

  // ---------- one byte ----------

  function Stop(m: Machine, outcome: Outcome): (Machine, Signal) {
    (m.(open := Closed), Done(outcome))
  }

  /** The first half of a case: nread, the mark, the parser and the data callback. */
  function Prepare(m: Machine, k: Case, ch: byte): (n: Machine)
    ensures n.p == k.p && n.errno == m.errno && n.nread == if k.resetNread then 0 else m.nread
  {
    var n := m.(p := k.p, nread := if k.resetNread then 0 else m.nread, open := SetMark(m.open, k.mark));
    CloseMark(n, k.close, ch)
  }

  /** The second half: the notification and the way on. */
  function Conclude(policy: Policy, m: Machine, k: Case): (r: (Machine, Signal))
    ensures r.1.Again? ==> k.next.Reexec? && r.0.p.state == m.p.state
  {
    var n := if k.fire.Fire? then FireNote(policy, m, k.fire.note) else m;
    if k.fire.Fire? && n.errno != OK then Stop(n, Left(k.fire.advance))
    else match k.next
      case Advance => (n, Done(Running))
      case Reexec => (n, Again)
      case Exit => Stop(n, Left(true))
      case Fail(e) => Stop(n.(errno := e), Failed)
      case Abort => Stop(n, Failed)
  }

  /** Carries out what a case says. */
  function Perform(policy: Policy, m: Machine, k: Case, ch: byte): (r: (Machine, Signal))
    ensures r.1.Again? ==> k.next.Reexec? && r.0.p.state == k.p.state
  {
    Conclude(policy, Prepare(m, k, ch), k)
  }

  /** The switch, repeated while cases end with REEXECUTE(). */
  function Switch(policy: Policy, m: Machine, ch: byte): (Machine, Outcome)
    decreases Rank(m.p.state)
  {
    var (n, signal) := Perform(policy, m, CaseOf(m.p, ch), ch);
    match signal
    case Again => Switch(policy, n, ch)
    case Done(outcome) => (n, outcome)
  }

  function Count(m: Machine): Machine {
    if ParsingHeader(m.p.state) then m.(nread := m.nread + 1) else m
  }

  function Collect(m: Machine, ch: byte): (n: Machine)
    ensures n == m.(open := n.open)
  {
    if m.open.Open? then m.(open := Open(m.open.kind, m.open.bytes + [ch])) else m
  }

  function Step(policy: Policy, m: Machine, ch: byte): (Machine, Outcome) {
    var (n, outcome) := Switch(policy, Count(m), ch);
    (if outcome.Running? then Collect(n, ch) else n, outcome)
  }

  // ---------- a buffer ----------

  datatype RunResult = RunResult(m: Machine, outcome: Outcome, count: nat)

  function Run(policy: Policy, m: Machine, data: seq<byte>): RunResult
    decreases |data|
  {
    if data == [] then RunResult(m, Running, 0)
    else
      var (n, outcome) := Step(policy, m, data[0]);
      if outcome.Running? then
        var r := Run(policy, n, data[1..]);
        r.(count := r.count + 1)
      else RunResult(n, outcome, if outcome == Left(true) then 1 else 0)
  }

  /** The mark that is set before the first byte of a buffer. */
  function Reopen(s: State): Open {
    if s.HeaderField? then Open(Field, [])
    else if s.HeaderValue? then Open(Value, [])
    else if InUrl(s) then Open(Url, [])
    else if s.ResStatus? then Open(Status, [])
    else Closed
  }

  /** The trace once the data collected so far has been reported. */
  function Flushed(m: Machine): seq<Event> {
    if m.open.Open? then Emit(m.trace, Data(m.open.kind, m.open.bytes)) else m.trace
  }

  /** The state between two calls of http_parser_execute, and the value it returned. */
  datatype Session = Session(p: Parser, errno: Errno, nread: nat, trace: seq<Event>)
  datatype Call = Call(after: Session, count: nat, outcome: Outcome)

  function Enter(c: Session): Machine {
    Machine(c.p, c.errno, c.nread, c.trace, Reopen(c.p.state))
  }

  function Leave(r: RunResult): Call {
    Call(Session(r.m.p, r.m.errno, r.m.nread, if r.outcome.Running? then Flushed(r.m) else r.m.trace),
         r.count, r.outcome)
  }

  /** A call with a buffer of length 0 reports the end of the stream. */
  function EndOfStream(policy: Policy, c: Session): Call {
    if c.p.state.BodyIdentityEof? then
      var m := FireNote(policy, Enter(c), MessageComplete);
      Call(Session(m.p, m.errno, m.nread, m.trace), 0, Left(false))
    else if c.p.state.Dead? || c.p.state.StartReqOrRes? || c.p.state.StartRes? || c.p.state.StartReq? then
      Call(c, 0, Left(false))
    else Call(c.(errno := InvalidEofState), 1, Left(false))
  }

  /** One call of http_parser_execute, byte by byte and without the header limit. */
  function Execute(policy: Policy, c: Session, data: seq<byte>): Call {
    if c.errno != OK then Call(c, 0, Left(false))
    else if data == [] then EndOfStream(policy, c)
    else Leave(Run(policy, Enter(c), data))
  }
}
