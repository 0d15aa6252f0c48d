/** The way input is cut into buffers does not matter. */
module HttpSplit {
  import opened Common
  import opened HttpTypes
  import opened HttpCases
  import opened HttpMachine

  // ---------- which data may be open in which state ----------

  function CollectedIn(s: State): Option<DataKind> {
    if Reopen(s).Open? then Some(Reopen(s).kind)
    else if s.BodyIdentity? || s.BodyIdentityEof? || s.ChunkData? || s.ChunkDataAlmostDone? then Some(Body)
    else None
  }

  /** At most one mark is set, and it is the one that belongs to the state. */
  predicate MarksFit(s: State, o: Open) {
    (o.Open? ==> CollectedIn(s) == Some(o.kind)) && (Reopen(s).Open? ==> o.Open?)
  }

  /** What the case k of state s does to the marks: it sets and reports only the
      mark of its state, notifies with no mark set, and hands on the mark that
      the next state expects. */
  predicate MarkRules(s: State, k: Case) {
    var before := CollectedIn(s);
    var may := if k.mark.Some? then k.mark else before;
    var must := k.mark.Some? || Reopen(s).Open?;
    && (k.mark.Some? && before.Some? ==> before == k.mark)
    && (!k.close.NoClose? ==> may == Some(k.close.kind))
    && (k.close.CloseAfter? ==> k.mark == Some(k.close.kind))
    && (k.fire.Fire? || k.next.Exit? ==> may == None || !k.close.NoClose?)
    && (k.next.Fail? || k.next.Abort? ==> k.close.NoClose? && k.fire.Silent?)
    && (k.next.Reexec? && before.Some? ==>
          !k.close.NoClose? && (k.p.state.HeaderAlmostDone? || k.p.state.MessageDone?))
    && (k.next.Advance? && k.close.NoClose? && before.Some? ==> k.mark.Some? || Reopen(s).Open?)
    && (k.next.Advance? || k.next.Reexec? ==>
          && (may.Some? && k.close.NoClose? ==> CollectedIn(k.p.state) == may)
          && (Reopen(k.p.state).Open? ==> must && k.close.NoClose?))
  }

  lemma StatusLineMarks(p: Parser, ch: byte)
    requires Phase(p.state).StatusPart?
    ensures MarkRules(p.state, StatusLineCase(p, ch))
  {
    hide AddDigit;
  }

  lemma RequestLineMarks(p: Parser, ch: byte)
    requires Phase(p.state).RequestPart?
    ensures MarkRules(p.state, RequestLineCase(p, ch))
  {
    hide UrlNext, FirstMethod, OtherMethod, MethodString, CharAt, AddDigit;
  }

  lemma UrlMarks(p: Parser, ch: byte)
    requires Phase(p.state).UrlPart?
    ensures MarkRules(p.state, UrlCase(p, ch))
  {
    hide UrlNext;
  }

  lemma HeaderMarks(p: Parser, ch: byte)
    requires Phase(p.state).HeaderPart?
    ensures MarkRules(p.state, HeaderCase(p, ch))
  {
    hide FieldNext, FieldFirst, Token, ConnectionToken, ValueFlags, AddLengthDigit, ValueNext;
    if p.state.HeaderValueDiscardWs? || p.state.HeaderValueStart? {
      ValueStartMarks(p, ch);
    }
    hide ValueStartCase;
  }

  lemma ValueStartMarks(p: Parser, ch: byte)
    requires p.state.HeaderValueDiscardWs? || p.state.HeaderValueStart?
    ensures MarkRules(p.state, HeaderCase(p, ch))
  {
    hide ConnectionToken, Lower;
  }

  lemma BodyMarks(p: Parser, ch: byte)
    requires Phase(p.state).BodyPart?
    ensures MarkRules(p.state, BodyCase(p, ch))
  {
    hide Unhex, NeedsEof, AddChunkDigit, HasBody;
  }

  lemma CaseMarks(p: Parser, ch: byte)
    ensures MarkRules(p.state, CaseOf(p, ch))
  {
    hide MarkRules, StatusLineCase, RequestLineCase, UrlCase, HeaderCase, BodyCase;
    match Phase(p.state)
    case StatusPart => StatusLineMarks(p, ch);
    case RequestPart => RequestLineMarks(p, ch);
    case UrlPart => UrlMarks(p, ch);
    case HeaderPart => HeaderMarks(p, ch);
    case BodyPart => BodyMarks(p, ch);
  }

  // ---------- one byte keeps the marks in order ----------

  lemma PerformKeepsMarks(policy: Policy, m: Machine, k: Case, ch: byte)
    requires MarksFit(m.p.state, m.open) && MarkRules(m.p.state, k)
    ensures var (n, signal) := Perform(policy, m, k, ch);
            signal != Done(Left(true)) && signal != Done(Left(false)) && signal != Done(Failed) ==>
              MarksFit(n.p.state, n.open)
  {
    hide CollectedIn, Reopen;
  }

  lemma {:induction false} SwitchKeepsMarks(policy: Policy, m: Machine, ch: byte)
    requires MarksFit(m.p.state, m.open)
    ensures var (n, outcome) := Switch(policy, m, ch);
            outcome.Running? ==> MarksFit(n.p.state, n.open)
    decreases Rank(m.p.state)
  {
    hide MarkRules, MarksFit, CaseOf, Perform;
    CaseMarks(m.p, ch);
    var k := CaseOf(m.p, ch);
    PerformKeepsMarks(policy, m, k, ch);
    var (n, signal) := Perform(policy, m, k, ch);
    if signal.Again? {
      SwitchKeepsMarks(policy, n, ch);
    }
  }

  lemma StepKeepsMarks(policy: Policy, m: Machine, ch: byte)
    requires MarksFit(m.p.state, m.open)
    ensures var (n, outcome) := Step(policy, m, ch);
            outcome.Running? ==> MarksFit(n.p.state, n.open)
  {
    hide Switch, CollectedIn, Reopen;
    SwitchKeepsMarks(policy, Count(m), ch);
  }

  // ---------- a cut inside a token ----------

  /** m has collected the bytes x of its open token before the cut; m' is the same
      parser that reported them at the cut and collects only what came since. */
  predicate Crossing(m: Machine, m': Machine, x: seq<byte>) {
    && x != [] && m.open.Open?
    && m'.p == m.p && m'.errno == m.errno && m'.nread == m.nread
    && m'.trace == Emit(m.trace, Data(m.open.kind, x))
    && match m'.open
       case Closed => m.open.bytes == x
       case Open(k, y) => k == m.open.kind && m.open.bytes == x + y
  }

  /** Nothing was reported on the way from m to n, and the token goes on. */
  predicate StillCrossing(m: Machine, m': Machine, n: Machine, n': Machine, x: seq<byte>) {
    Crossing(n, n', x) && n'.open.Open? && n.trace == m.trace && n'.trace == m'.trace
  }

  lemma PrepareCrossing(m: Machine, m': Machine, k: Case, ch: byte, x: seq<byte>)
    requires Crossing(m, m', x) && MarksFit(m.p.state, m.open) && MarksFit(m'.p.state, m'.open) && MarkRules(m.p.state, k)
    ensures var n := Prepare(m, k, ch);
            var n' := Prepare(m', k, ch);
            if k.close.NoClose? then
              && Crossing(n, n', x) && n.trace == m.trace && n'.trace == m'.trace
              && (k.next.Advance? ==> n'.open.Open?)
            else n == n' && n.open.Closed?
  {
    hide CollectedIn, Reopen, Emit;
    var o := SetMark(m'.open, k.mark);
    if o.Open? {
      EmitJoins(m.trace, o.kind, x, o.bytes);
      EmitJoins(m.trace, o.kind, x, o.bytes + [ch]);
      assert x + (o.bytes + [ch]) == x + o.bytes + [ch];
    }
    assert x + [] == x;
  }

  lemma PerformCrossing(policy: Policy, m: Machine, m': Machine, k: Case, ch: byte, x: seq<byte>)
    requires Crossing(m, m', x) && MarksFit(m.p.state, m.open) && MarksFit(m'.p.state, m'.open) && MarkRules(m.p.state, k)
    ensures var (n, signal) := Perform(policy, m, k, ch);
            var (n', signal') := Perform(policy, m', k, ch);
            && signal' == signal
            && (signal.Again? ==> n == n' && n.open.Closed? && (n.p.state.HeaderAlmostDone? || n.p.state.MessageDone?))
            && (signal == Done(Running) ==> (n == n' && n.open.Closed?) || StillCrossing(m, m', n, n', x))
            && (signal.Done? && signal.outcome.Left? ==> n == n')
            && (signal == Done(Failed) ==> n'.p == n.p && n'.errno == n.errno && n'.nread == n.nread &&
                                           n.trace == m.trace && n'.trace == m'.trace)
  {
    PrepareCrossing(m, m', k, ch, x);
    hide CollectedIn, Reopen, Notified, Emit, Prepare;
  }

  /** The states that a case jumps to after reporting data do not fail. */
  lemma NoFailureAfterReport(policy: Policy, m: Machine, ch: byte)
    requires m.p.state.HeaderAlmostDone? || m.p.state.MessageDone?
    requires m.open.Closed?
    ensures !Switch(policy, m, ch).1.Failed? && Switch(policy, m, ch).0.open.Closed?
  {
    hide Emit, Notified, NoteErrno;
  }

  lemma {:induction false} SwitchCrossing(policy: Policy, m: Machine, m': Machine, ch: byte, x: seq<byte>)
    requires Crossing(m, m', x) && MarksFit(m.p.state, m.open) && MarksFit(m'.p.state, m'.open)
    ensures var (n, outcome) := Switch(policy, m, ch);
            var (n', outcome') := Switch(policy, m', ch);
            && outcome' == outcome
            && (outcome.Running? ==> (n == n' && n.open.Closed?) || StillCrossing(m, m', n, n', x))
            && (outcome.Left? ==> n == n')
            && (outcome.Failed? ==> n'.p == n.p && n'.errno == n.errno && n'.nread == n.nread &&
                                    n.trace == m.trace && n'.trace == m'.trace)
  {
    hide MarkRules, MarksFit, CaseOf, Perform;
    CaseMarks(m.p, ch);
    var k := CaseOf(m.p, ch);
    PerformCrossing(policy, m, m', k, ch, x);
    var (n, signal) := Perform(policy, m, k, ch);
    if signal.Again? {
      NoFailureAfterReport(policy, n, ch);
    }
  }

  lemma CollectCrossing(n: Machine, n': Machine, ch: byte, x: seq<byte>)
    requires Crossing(n, n', x) && n'.open.Open?
    ensures Crossing(Collect(n, ch), Collect(n', ch), x)
  {
    assert x + n'.open.bytes + [ch] == x + (n'.open.bytes + [ch]);
  }

  lemma StepCrossing(policy: Policy, m: Machine, m': Machine, ch: byte, x: seq<byte>)
    requires Crossing(m, m', x) && MarksFit(m.p.state, m.open) && MarksFit(m'.p.state, m'.open)
    ensures var (n, outcome) := Step(policy, m, ch);
            var (n', outcome') := Step(policy, m', ch);
            && outcome' == outcome
            && (outcome.Running? ==> (n == n' && n.open.Closed?) || StillCrossing(m, m', n, n', x))
            && (outcome.Left? ==> n == n')
            && (outcome.Failed? ==> n'.p == n.p && n'.errno == n.errno && n'.nread == n.nread &&
                                    n.trace == m.trace && n'.trace == m'.trace)
  {
    SwitchCrossing(policy, Count(m), Count(m'), ch, x);
    var (n, outcome) := Switch(policy, Count(m), ch);
    var (n', outcome') := Switch(policy, Count(m'), ch);
    if outcome.Running? && n != n' {
      CollectCrossing(n, n', ch, x);
    }
    hide Switch, CollectedIn, Reopen, Crossing, Collect;
  }

  // ---------- buffers ----------

  lemma {:induction false} RunKeepsMarks(policy: Policy, m: Machine, data: seq<byte>)
    requires MarksFit(m.p.state, m.open)
    ensures var r := Run(policy, m, data);
            r.outcome.Running? ==> MarksFit(r.m.p.state, r.m.open)
    decreases |data|
  {
    hide Step, MarksFit;
    if data != [] {
      StepKeepsMarks(policy, m, data[0]);
      var (n, outcome) := Step(policy, m, data[0]);
      if outcome.Running? {
        RunKeepsMarks(policy, n, data[1..]);
      }
    }
  }

  /** A buffer that is read to its end leaves no error behind. */
  lemma {:induction false} RunningIsOk(policy: Policy, m: Machine, data: seq<byte>)
    requires m.errno == OK
    ensures var r := Run(policy, m, data);
            r.outcome.Running? ==> r.m.errno == OK && r.count == |data|
    decreases |data|
  {
    hide Step;
    if data != [] {
      StepRunningIsOk(policy, m, data[0]);
      var (n, outcome) := Step(policy, m, data[0]);
      if outcome.Running? {
        RunningIsOk(policy, n, data[1..]);
      }
    }
  }

  lemma StepRunningIsOk(policy: Policy, m: Machine, ch: byte)
    requires m.errno == OK
    ensures var (n, outcome) := Step(policy, m, ch); outcome.Running? ==> n.errno == OK
  {
    hide Switch;
    SwitchRunningIsOk(policy, Count(m), ch);
  }

  lemma {:induction false} SwitchRunningIsOk(policy: Policy, m: Machine, ch: byte)
    requires m.errno == OK
    ensures var (n, outcome) := Switch(policy, m, ch); outcome.Running? ==> n.errno == OK
    decreases Rank(m.p.state)
  {
    hide CaseOf, Emit, Notified, NoteErrno;
    var (n, signal) := Perform(policy, m, CaseOf(m.p, ch), ch);
    if signal.Again? {
      SwitchRunningIsOk(policy, n, ch);
    }
  }

  /** Reading two pieces one after the other is reading them joined. */
  lemma {:induction false} RunAppend(policy: Policy, m: Machine, a: seq<byte>, b: seq<byte>)
    ensures var r := Run(policy, m, a);
            Run(policy, m, a + b) ==
              if r.outcome.Running? then
                var s := Run(policy, r.m, b); s.(count := r.count + s.count)
              else r
    decreases |a|
  {
    hide Step;
    if a == [] {
      assert a + b == b;
    } else {
      assert (a + b)[1..] == a[1..] + b;
      var (n, outcome) := Step(policy, m, a[0]);
      if outcome.Running? {
        RunAppend(policy, n, a[1..], b);
      }
    }
  }

  /** The token that is open in m is still open when the parser fails on data. */
  predicate FailsInsideToken(policy: Policy, m: Machine, data: seq<byte>)
    decreases |data|
  {
    && m.open.Open? && data != []
    && var (n, outcome) := Step(policy, m, data[0]);
       outcome.Failed? || (outcome.Running? && FailsInsideToken(policy, n, data[1..]))
  }

  /** What a cut inside a token can change: if the parser fails inside that token, the
      bytes before the cut were reported only by the run that was cut. */
  predicate RunsAgree(m: Machine, m': Machine, r: RunResult, r': RunResult, inside: bool, x: seq<byte>) {
    && r'.outcome == r.outcome && r'.count == r.count
    && (r.outcome.Running? ==> r'.m == r.m || Crossing(r.m, r'.m, x))
    && (inside ==> r.outcome.Failed? && r'.m.p == r.m.p && r'.m.errno == r.m.errno &&
                   r'.m.nread == r.m.nread && r.m.trace == m.trace && r'.m.trace == m'.trace)
    && (!r.outcome.Running? && !inside ==> r'.m == r.m)
  }

  lemma {:induction false} RunCrossing(policy: Policy, m: Machine, m': Machine, data: seq<byte>, x: seq<byte>)
    requires Crossing(m, m', x) && MarksFit(m.p.state, m.open) && MarksFit(m'.p.state, m'.open)
    ensures RunsAgree(m, m', Run(policy, m, data), Run(policy, m', data), FailsInsideToken(policy, m, data), x)
    decreases |data|
  {
    if data != [] {
      StepCrossing(policy, m, m', data[0], x);
      StepKeepsMarks(policy, m, data[0]);
      StepKeepsMarks(policy, m', data[0]);
      var (n, outcome) := Step(policy, m, data[0]);
      var (n', outcome') := Step(policy, m', data[0]);
      assert m.open.Open?;
      if outcome.Running? && n != n' {
        RunCrossing(policy, n, n', data[1..], x);
        assert n.trace == m.trace && n'.trace == m'.trace;
      }
      hide Step, MarksFit, Emit, Crossing, StillCrossing;
    }
  }

  /** The number of data bytes that a trace reports. */
  function Reported(trace: seq<Event>): nat {
    if trace == [] then 0
    else
      var e := trace[|trace|-1];
      Reported(trace[..|trace|-1]) + if e.Data? then |e.bytes| else 0
  }

  /** Cutting inside a token that then fails is the one way to see the cut: data is reported that
      is lost otherwise. */
  lemma LostData(trace: seq<Event>, k: DataKind, x: seq<byte>)
    ensures Reported(Emit(trace, Data(k, x))) == Reported(trace) + |x|
  {
    var more := Emit(trace, Data(k, x));
    assert more == more[..|more|-1] + [more[|more|-1]];
    if |trace| > 0 && trace[|trace|-1].Data? && trace[|trace|-1].kind == k {
      assert more[..|more|-1] == trace[..|trace|-1];
    } else {
      assert more[..|more|-1] == trace;
    }
  }

  /** After a non-empty buffer every open token has collected something. */
  lemma {:induction false} RunCollects(policy: Policy, m: Machine, data: seq<byte>)
    requires data != []
    ensures var r := Run(policy, m, data);
            r.outcome.Running? && r.m.open.Open? ==> r.m.open.bytes != []
    decreases |data|
  {
    hide Switch;
    var (n, outcome) := Step(policy, m, data[0]);
    if outcome.Running? && data[1..] != [] {
      RunCollects(policy, n, data[1..]);
    }
  }

  lemma CrossingFlushed(m: Machine, m': Machine, x: seq<byte>)
    requires Crossing(m, m', x)
    ensures Flushed(m) == Flushed(m')
  {
    if m'.open.Open? {
      EmitJoins(m.trace, m.open.kind, x, m'.open.bytes);
    }
  }

  /** The machine m at the cut against the machine that starts again after it. */
  lemma SplitFrom(policy: Policy, m: Machine, data: seq<byte>)
    requires MarksFit(m.p.state, m.open) && (m.open.Open? ==> m.open.bytes != [])
    ensures var whole := Leave(Run(policy, m, data));
            var cut := Leave(Run(policy, Enter(Session(m.p, m.errno, m.nread, Flushed(m))), data));
            && whole.outcome == cut.outcome && whole.count == cut.count
            && whole.after.(trace := []) == cut.after.(trace := [])
            && (!FailsInsideToken(policy, m, data) ==> whole.after.trace == cut.after.trace)
            && (FailsInsideToken(policy, m, data) ==> Reported(whole.after.trace) < Reported(cut.after.trace))
  {
    var m' := Enter(Session(m.p, m.errno, m.nread, Flushed(m)));
    if m.open.Closed? {
      assert m' == m;
    } else {
      var x := m.open.bytes;
      assert x + [] == x;
      assert Crossing(m, m', x);
      RunCrossing(policy, m, m', data, x);
      var r := Run(policy, m, data);
      var r' := Run(policy, m', data);
      LostData(m.trace, m.open.kind, x);
      if r.outcome.Running? && r'.m != r.m {
        CrossingFlushed(r.m, r'.m, x);
      }
      hide Run, Emit, CollectedIn, FailsInsideToken, Reported;
    }
  }

  /** The traces of one call and of two: equal, or the cut shows by more data. */
  ghost predicate Compared(whole: seq<Event>, cut: seq<Event>, shows: bool) {
    && (shows ==> Reported(whole) < Reported(cut))
    && (!shows ==> whole == cut)
  }

  /** Split invariance. If a first call reads all of a and the connection goes on, then
      a second call with b brings it where one call with a + b does: the same parser, error
      and header count, the same number of bytes read, and the same trace of callbacks up to
      the cutting of data. The traces differ exactly if the parser fails inside the token
      that was open at the cut. */
  lemma SplitInvariance(policy: Policy, c: Session, a: seq<byte>, b: seq<byte>)
    requires c.errno == OK && a != [] && b != []
    requires Execute(policy, c, a).outcome.Running?
    ensures var first := Execute(policy, c, a);
            var second := Execute(policy, first.after, b);
            var whole := Execute(policy, c, a + b);
            && first.count == |a|
            && whole.outcome == second.outcome && whole.count == first.count + second.count
            && whole.after.p == second.after.p && whole.after.errno == second.after.errno
            && whole.after.nread == second.after.nread
            && Compared(whole.after.trace, second.after.trace, FailsInsideToken(policy, Run(policy, Enter(c), a).m, b))
  {
    var m := Enter(c);
    var r := Run(policy, m, a);
    RunAppend(policy, m, a, b);
    RunningIsOk(policy, m, a);
    RunKeepsMarks(policy, m, a);
    RunCollects(policy, m, a);
    SplitFrom(policy, r.m, b);
    hide Run, Emit, CollectedIn, FailsInsideToken, Reopen, Reported;
  }

  // ---------- any number of buffers ----------

  function Flatten(buffers: seq<seq<byte>>): seq<byte> {
    if buffers == [] then [] else buffers[0] + Flatten(buffers[1..])
  }

  /** Calls the parser with one buffer after the other while the connection goes on. */
  function Feed(policy: Policy, c: Session, buffers: seq<seq<byte>>): Call
    requires buffers != []
    decreases |buffers|
  {
    var first := Execute(policy, c, buffers[0]);
    if |buffers| == 1 || !first.outcome.Running? then first
    else
      var rest := Feed(policy, first.after, buffers[1..]);
      rest.(count := first.count + rest.count)
  }

  /** The parser fails inside a token that was open at one of the cuts. */
  predicate Shows(policy: Policy, c: Session, buffers: seq<seq<byte>>)
    requires buffers != []
    decreases |buffers|
  {
    && |buffers| > 1 && Execute(policy, c, buffers[0]).outcome.Running?
    && (|| FailsInsideToken(policy, Run(policy, Enter(c), buffers[0]).m, Flatten(buffers[1..]))
        || Shows(policy, Execute(policy, c, buffers[0]).after, buffers[1..]))
  }

  /** Split invariance for any cutting of a stream into non-empty buffers. */
  lemma {:induction false} CutInvariance(policy: Policy, c: Session, buffers: seq<seq<byte>>)
    requires c.errno == OK && buffers != [] && forall i | 0 <= i < |buffers| :: buffers[i] != []
    ensures var cut := Feed(policy, c, buffers);
            var whole := Execute(policy, c, Flatten(buffers));
            && whole.outcome == cut.outcome && whole.count == cut.count
            && whole.after.(trace := []) == cut.after.(trace := [])
            && Compared(whole.after.trace, cut.after.trace, Shows(policy, c, buffers))
    decreases |buffers|
  {
    hide Run, FailsInsideToken, Reopen, EndOfStream, Reported;
    var a, rest := buffers[0], Flatten(buffers[1..]);
    var first := Execute(policy, c, a);
    if |buffers| == 1 {
      assert a + [] == a;
    } else if first.outcome.Running? {
      RunningIsOk(policy, Enter(c), a);
      CutInvariance(policy, first.after, buffers[1..]);
      assert rest != [] by { assert buffers[1] != []; }
      SplitInvariance(policy, c, a, rest);
    } else {
      RunAppend(policy, Enter(c), a, rest);
    }
  }

  // ---------- the cut that shows ----------

  function Willing(): Policy { trace => Answer(0, false) }

  lemma FirstLetter(m: Machine)
    requires m == Enter(Session(InitialParser(Request), OK, 0, []))
    ensures var p := m.p.(contentLength := ULLONG_MAX, verb := GET, index := 1, state := ReqMethod);
            Step(Willing(), m, 71) == (Machine(p, OK, 1, [Notify(MessageBegin, p)], Closed), Running)
  {
    var p := m.p.(contentLength := ULLONG_MAX, verb := GET, index := 1, state := ReqMethod);
    assert CaseOf(m.p, 71) == Case(p, Advance, fire := Fire(MessageBegin, true));
    assert [] + [Notify(MessageBegin, p)] == [Notify(MessageBegin, p)];
    hide CaseOf;
  }

  lemma MethodLetter(m: Machine, ch: byte)
    requires m.p.state.ReqMethod? && m.open.Closed? && ch > SP
    requires ch == CharAt(MethodString(m.p.verb), m.p.index)
    ensures Step(Willing(), m, ch) == (m.(p := m.p.(index := m.p.index + 1), nread := m.nread + 1), Running)
  {
    hide MethodString, CharAt;
  }

  lemma MethodEnd(m: Machine)
    requires m.p.state.ReqMethod? && m.open.Closed? && CharAt(MethodString(m.p.verb), m.p.index) == 0
    ensures Step(Willing(), m, SP) ==
              (m.(p := m.p.(index := m.p.index + 1, state := ReqSpacesBeforeUrl), nread := m.nread + 1), Running)
  {
    hide MethodString, CharAt;
  }

  lemma Slash(m: Machine)
    requires m.p.state.ReqSpacesBeforeUrl? && m.p.verb.GET? && m.open.Closed?
    ensures Step(Willing(), m, 47) ==
              (m.(p := m.p.(state := ReqPath), nread := m.nread + 1, open := Open(Url, [47])), Running)
  {
    assert [] + [47 as byte] == [47];
  }

  /** A concrete cut that can be seen: a request starts with "GET /" and the byte 1, which is
      no URL character. Cut before that byte, the URL is reported; in one piece it is not. */
  lemma CutInsideFailingUrl()
    ensures var c := Session(InitialParser(Request), OK, 0, []);
            var a: seq<byte> := [71, 69, 84, 32, 47];
            var first := Execute(Willing(), c, a);
            && first.outcome.Running?
            && Execute(Willing(), c, a + [1]).after.trace !=
               Execute(Willing(), first.after, [1]).after.trace
  {
    hide Step, EndOfStream;
    var c := Session(InitialParser(Request), OK, 0, []);
    var m0 := Enter(c);
    FirstLetter(m0);
    var m1 := Step(Willing(), m0, 71).0;
    MethodLetter(m1, 69);
    var m2 := Step(Willing(), m1, 69).0;
    MethodLetter(m2, 84);
    var m3 := Step(Willing(), m2, 84).0;
    MethodEnd(m3);
    var m4 := Step(Willing(), m3, SP).0;
    Slash(m4);
    var m5 := Step(Willing(), m4, 47).0;
    var a: seq<byte> := [71, 69, 84, 32, 47];
    assert a == [71] + ([69] + ([84] + ([32] + [47])));
    RunOne(m4, 47, []);
    RunOne(m3, 32, [47]);
    RunOne(m2, 84, [32, 47]);
    RunOne(m1, 69, [84, 32, 47]);
    RunOne(m0, 71, [69, 84, 32, 47]);
    assert Run(Willing(), m0, a).m == m5;
    FailsAtOnce(m5);
    SplitInvariance(Willing(), c, a, [1]);
  }

  lemma RunOne(m: Machine, ch: byte, rest: seq<byte>)
    requires Step(Willing(), m, ch).1.Running?
    ensures Run(Willing(), m, [ch] + rest) ==
              var r := Run(Willing(), Step(Willing(), m, ch).0, rest);
              r.(count := r.count + 1)
  {
    hide Step;
    assert ([ch] + rest)[1..] == rest;
  }

  lemma BadUrlByte(m: Machine)
    requires m.p.state.ReqPath?
    ensures Step(Willing(), m, 1).1.Failed?
  {
  }

  lemma FailsAtOnce(m: Machine)
    requires m.p.state.ReqPath? && m.open.Open?
    ensures FailsInsideToken(Willing(), m, [1])
  {
    hide Step;
    BadUrlByte(m);
  }
}
