/** What the count of header bytes changes: where it stops the parser, and that it changes nothing
    else. */
module HttpCounting {
  import opened Common
  import opened HttpTypes
  import opened HttpCases
  import opened HttpMachine
  import opened HttpSplit
  import opened HttpTokens
  import opened HttpLimit

  // ---------- the loops over names and values ----------

  /** The last byte of data was read inside a loop over a header name or value that goes on;
      without data, inLoop tells. */
  predicate EndsInLoop(policy: Policy, m: Machine, data: seq<byte>, inLoop: bool)
    decreases |data|
  {
    if data == [] then inLoop
    else
      var (n, outcome) := Step(policy, m, data[0]);
      outcome.Running? && EndsInLoop(policy, n, data[1..], Bulk(m.p.state) && n.p.state == m.p.state)
  }

  /** The same said by the states before and after the last byte. */
  lemma {:induction false} EndsInLoopIs(policy: Policy, m: Machine, data: seq<byte>, inLoop: bool)
    requires data != []
    ensures var before, after := Run(policy, m, data[..|data|-1]), Run(policy, m, data);
            EndsInLoop(policy, m, data, inLoop) <==>
              before.outcome.Running? && after.outcome.Running? &&
              Bulk(before.m.p.state) && after.m.p.state == before.m.p.state
    decreases |data|
  {
    hide Step;
    var (n, outcome) := Step(policy, m, data[0]);
    if |data| == 1 {
      assert data[1..] == [] && data[..0] == [];
    } else if outcome.Running? {
      EndsInLoopIs(policy, n, data[1..], Bulk(m.p.state) && n.p.state == m.p.state);
      assert data[..|data|-1][1..] == data[1..][..|data|-2];
    }
  }

  /** What a byte does to a parser inside a loop. */
  ghost predicate StaysOrLeaves(policy: Policy, m: Machine, ch: byte, stays: bool) {
    var (n, outcome) := Step(policy, m, ch);
    && (outcome.Running? ==> (n.p.state == m.p.state <==> stays))
    && (outcome.Running? && stays ==> n.nread == m.nread + 1)
  }

  lemma FieldStays(policy: Policy, m: Machine, ch: byte)
    requires m.p.state.HeaderField?
    ensures StaysOrLeaves(policy, m, ch, Token(ch) != 0)
    ensures Token(ch) != 0 ==> Step(policy, m, ch).1.Running?
  {
    assert CaseOf(m.p, ch) == FieldCase(m.p, ch) by { hide FieldCase; }
    hide CaseOf, FieldNext, Token, Emit;
    PlainStep(policy, m, ch);
  }

  /** A line feed ends the value and the line at once. */
  lemma LineFeed(policy: Policy, m: Machine)
    requires m.p.state.HeaderValue?
    ensures var (n, outcome) := Step(policy, m, LF); outcome.Running? && n.p.state.HeaderValueLws?
  {
    var k := ValueCase(m.p, LF);
    assert CaseOf(m.p, LF) == k;
    var n := Prepare(Count(m), k, LF);
    assert Perform(policy, Count(m), k, LF) == (n, Again);
    assert CaseOf(n.p, LF) == Go(n.p, HeaderValueLws);
    hide CaseOf, Emit, Prepare;
    PlainSwitch(policy, n, LF);
  }

  lemma ValueStays(policy: Policy, m: Machine, ch: byte)
    requires m.p.state.HeaderValue?
    ensures StaysOrLeaves(policy, m, ch, !LineEnd(ch))
    ensures if LineEnd(ch) then !Step(policy, m, ch).1.Failed? else !Step(policy, m, ch).1.Left?
  {
    if ch == LF {
      LineFeed(policy, m);
      hide Step;
    } else {
      assert CaseOf(m.p, ch) == ValueCase(m.p, ch) by { hide ValueCase; }
      var k := ValueCase(m.p, ch);
      hide CaseOf, ValueNext, AddLengthDigit, Emit, Step;
      if ch == CR {
        CarriageReturn(policy, m);
      } else if k.next.Fail? {
        FailedStep(policy, m, ch, InvalidContentLength);
      } else {
        PlainStep(policy, m, ch);
      }
    }
  }

  lemma CarriageReturn(policy: Policy, m: Machine)
    requires m.p.state.HeaderValue?
    ensures var (n, outcome) := Step(policy, m, CR); outcome.Running? && n.p.state.HeaderAlmostDone?
  {
    assert CaseOf(m.p, CR) == ValueCase(m.p, CR) by { hide ValueCase; }
    hide CaseOf, Emit;
  }

  /** A byte keeps the parser inside a loop exactly if it is a token character, or no line end. */
  predicate KeepsInLoop(s: State, ch: byte) { if s.HeaderField? then Token(ch) != 0 else !LineEnd(ch) }

  lemma BulkStays(policy: Policy, m: Machine, ch: byte)
    requires Bulk(m.p.state)
    ensures StaysOrLeaves(policy, m, ch, KeepsInLoop(m.p.state, ch))
    ensures m.p.state.HeaderField? && Token(ch) != 0 ==> Step(policy, m, ch).1.Running?
    ensures m.p.state.HeaderValue? && LineEnd(ch) ==> !Step(policy, m, ch).1.Failed?
    ensures KeepsInLoop(m.p.state, ch) ==> !Step(policy, m, ch).1.Left?
  {
    hide Step, StaysOrLeaves, Token, LineEnd;
    if m.p.state.HeaderField? {
      FieldStays(policy, m, ch);
    } else {
      ValueStays(policy, m, ch);
    }
  }

  // ---------- no other difference ----------

  lemma StepErrno(policy: Policy, m: Machine, ch: byte)
    requires !m.errno.HeaderOverflow?
    ensures !Step(policy, m, ch).0.errno.HeaderOverflow?
  {
    hide Switch;
    SwitchErrno(policy, Count(m), ch);
  }

  lemma {:induction false} SwitchErrno(policy: Policy, m: Machine, ch: byte)
    requires !m.errno.HeaderOverflow?
    ensures !Switch(policy, m, ch).0.errno.HeaderOverflow?
    decreases Rank(m.p.state)
  {
    hide CaseOf, Emit, Notified;
    var (n, signal) := Perform(policy, m, CaseOf(m.p, ch), ch);
    if signal.Again? {
      SwitchErrno(policy, n, ch);
    }
  }

  /** A limited call that does not overflow ends like the run without a limit, with one surplus
      count if it ends inside a loop. */
  ghost predicate LikeRun(call: Call, r: RunResult, i: nat, surplus: bool) {
    && call.outcome == r.outcome && call.count == i + r.count
    && call.after.p == r.m.p && call.after.errno == r.m.errno
    && call.after.trace == (if r.outcome.Running? then Flushed(r.m) else r.m.trace)
    && (!r.outcome.Failed? ==> call.after.nread == r.m.nread + if r.outcome.Running? && surplus then 1 else 0)
  }

  lemma {:induction false} LimitIsRun(policy: Policy, m: Machine, buf: seq<byte>, i: nat, loop: Option<Loop>)
    requires i <= |buf| && !m.errno.HeaderOverflow? && (loop.Some? ==> Bulk(m.p.state))
    ensures var call := LimitAt(policy, m, buf, i, loop);
            !call.after.errno.HeaderOverflow? ==>
              LikeRun(call, Run(policy, m, buf[i..]), i, EndsInLoop(policy, m, buf[i..], loop.Some?))
    decreases |buf| - i
  {
    hide Step, Flushed, LimitLoop, LimitResume;
    if i < |buf| {
      var ch := buf[i];
      assert buf[i..][0] == ch && buf[i..][1..] == buf[i + 1..];
      var (n, outcome) := Step(policy, m, ch);
      StepErrno(policy, m, ch);
      ResumeIsStep(policy, m, buf, i);
      var l := if loop.Some? then loop.value else Loop(m.p.headerState, m.nread + 1);
      if Bulk(m.p.state) {
        BulkStays(policy, m, ch);
        LoopCases(policy, m, buf, i, l);
      }
      if outcome.Running? {
        LimitIsRun(policy, n, buf, i + 1, if Bulk(m.p.state) && n.p.state == m.p.state then Some(l) else None);
      }
      hide Bulk, KeepsInLoop;
    } else {
      assert buf[i..] == [];
    }
  }

  /** What a byte of a loop leads to, if the count allows. */
  lemma LoopCases(policy: Policy, m: Machine, buf: seq<byte>, i: nat, l: Loop)
    requires i < |buf| && Bulk(m.p.state)
    ensures var (n, outcome) := Step(policy, m, buf[i]);
            var call := LimitLoop(policy, m, buf, i, l);
            || call.after.errno.HeaderOverflow?
            || call == (if !KeepsInLoop(m.p.state, buf[i]) then LimitResume(policy, Count(m), buf, i)
                        else if outcome.Running? then LimitAt(policy, n, buf, i + 1, Some(l))
                        else Call(Session(n.p, n.errno, l.nread, n.trace), i, outcome))
  {
    BulkStays(policy, m, buf[i]);
    hide Step, LimitAt, LimitResume, Token, SkipsAll;
  }

  lemma ResumeIsStep(policy: Policy, m: Machine, buf: seq<byte>, i: nat)
    requires i < |buf|
    ensures var (n, outcome) := Step(policy, m, buf[i]);
            LimitResume(policy, Count(m), buf, i) ==
              if outcome.Running? then LimitAt(policy, n, buf, i + 1, None)
              else Call(Session(n.p, n.errno, n.nread, n.trace), if outcome == Left(true) then i + 1 else i, outcome)
  {
    hide Switch, LimitAt, Collect;
  }

  /** http_parser_execute against the machine without a limit: unless there are too many header
      bytes they agree, and nread is one too high exactly if the last byte was read inside a loop
      over a header name or value that goes on. */
  lemma LimitedIsExecute(policy: Policy, c: Session, data: seq<byte>)
    requires !c.errno.HeaderOverflow?
    ensures var call, run := Limited(policy, c, data), Execute(policy, c, data);
            !call.after.errno.HeaderOverflow? ==>
              && call.outcome == run.outcome && call.count == run.count
              && call.after.(nread := 0) == run.after.(nread := 0)
              && (!call.outcome.Failed? ==>
                    call.after.nread == run.after.nread + if Surplus(policy, c, data) then 1 else 0)
  {
    if c.errno == OK && data != [] {
      LimitIsRun(policy, Enter(c), data, 0, None);
      assert data[0..] == data;
      EndsInLoopIs(policy, Enter(c), data, false);
    }
    hide LimitAt, Run, EndOfStream, EndsInLoop;
  }

  /** The last byte of data was read inside a loop over a header name or value. */
  predicate Surplus(policy: Policy, c: Session, data: seq<byte>) {
    && c.errno == OK && data != []
    && var before, after := Run(policy, Enter(c), data[..|data|-1]), Run(policy, Enter(c), data);
       && before.outcome.Running? && after.outcome.Running?
       && Bulk(before.m.p.state) && after.m.p.state == before.m.p.state
  }

  // ---------- nread is of no consequence otherwise ----------

  lemma {:induction false} SwitchNread(policy: Policy, m: Machine, ch: byte, k: nat)
    ensures var (n, outcome) := Switch(policy, m, ch);
            var (n', outcome') := Switch(policy, m.(nread := k), ch);
            outcome' == outcome && n' == n.(nread := n'.nread)
    decreases Rank(m.p.state)
  {
    hide CaseOf, Emit, Notified, NoteErrno;
    var (n, signal) := Perform(policy, m, CaseOf(m.p, ch), ch);
    if signal.Again? {
      SwitchNread(policy, n, ch, Perform(policy, m.(nread := k), CaseOf(m.p, ch), ch).0.nread);
    }
  }

  lemma StepNread(policy: Policy, m: Machine, ch: byte, k: nat)
    ensures var (n, outcome) := Step(policy, m, ch);
            var (n', outcome') := Step(policy, m.(nread := k), ch);
            outcome' == outcome && n' == n.(nread := n'.nread)
  {
    hide Switch;
    var m' := Count(m.(nread := k));
    assert m' == Count(m).(nread := m'.nread);
    SwitchNread(policy, Count(m), ch, m'.nread);
  }

  lemma {:induction false} RunNread(policy: Policy, m: Machine, data: seq<byte>, k: nat)
    ensures var r, r' := Run(policy, m, data), Run(policy, m.(nread := k), data);
            r'.outcome == r.outcome && r'.count == r.count && r'.m == r.m.(nread := r'.m.nread)
    decreases |data|
  {
    hide Step;
    if data != [] {
      StepNread(policy, m, data[0], k);
      var (n, outcome) := Step(policy, m, data[0]);
      if outcome.Running? {
        RunNread(policy, n, data[1..], Step(policy, m.(nread := k), data[0]).0.nread);
      }
    }
  }

  /** What a call does, apart from nread, does not depend on nread. */
  lemma ExecuteNread(policy: Policy, c: Session, data: seq<byte>, k: nat)
    ensures var a, b := Execute(policy, c, data), Execute(policy, c.(nread := k), data);
            b.outcome == a.outcome && b.count == a.count && b.after.(nread := 0) == a.after.(nread := 0)
  {
    hide Run, Emit, Notified, NoteErrno;
    RunNread(policy, Enter(c), data, k);
  }

  // ---------- when the header is too long ----------

  /** The bytes of a Content-Length that fails are never counted. */
  predicate Uncounted(p: Parser, data: seq<byte>, inLoop: bool) {
    inLoop && p.state.HeaderValue? && p.headerState.ContentLength? && LengthFails(p.contentLength, data)
  }

  /** Some byte that counts, or the surplus at the end, makes nread too high. */
  predicate Trips(policy: Policy, m: Machine, data: seq<byte>, inLoop: bool)
    decreases |data|
  {
    if data == [] then inLoop && TooMany(m.nread + 1)
    else
      var (n, outcome) := Step(policy, m, data[0]);
      || (ParsingHeader(m.p.state) && TooMany(m.nread + 1) && !Uncounted(m.p, data, inLoop))
      || (outcome.Running? && Trips(policy, n, data[1..], Bulk(m.p.state) && n.p.state == m.p.state))
  }

  /** Inside a loop of which nothing goes uncounted, once too many is too many. */
  lemma StaysTooMany(policy: Policy, m: Machine, data: seq<byte>)
    requires Bulk(m.p.state) && TooMany(m.nread + 1) && !Uncounted(m.p, data, true)
    ensures Trips(policy, m, data, true)
  {
    hide Step;
  }

  /** Long stretches of a general value are too many. */
  lemma {:induction false} GeneralTrips(policy: Policy, m: Machine, data: seq<byte>, inLoop: bool, k: nat)
    requires m.p.state.HeaderValue? && m.p.headerState.General? && TooMany(m.nread + k + 1)
    requires k <= |data| && (inLoop || k > 0) && forall i | 0 <= i < k :: !LineEnd(data[i])
    ensures Trips(policy, m, data, inLoop)
    decreases k
  {
    hide Step;
    if k == 0 {
      StaysTooMany(policy, m, data);
    } else {
      GeneralByte(policy, m, data[0]);
      GeneralTrips(policy, Step(policy, m, data[0]).0, data[1..], true, k - 1);
    }
  }

  lemma GeneralByte(policy: Policy, m: Machine, ch: byte)
    requires m.p.state.HeaderValue? && m.p.headerState.General? && !LineEnd(ch)
    ensures Step(policy, m, ch) == (Collect(Count(m), ch), Running)
  {
    assert CaseOf(m.p, ch) == ValueCase(m.p, ch) by { hide ValueCase; }
    assert ValueNext(m.p, ch) == m.p;
    hide CaseOf, ValueNext;
    PlainStep(policy, m, ch);
    assert Count(m).(p := m.p) == Count(m);
  }

  /** How the length of a value goes on. */
  lemma LengthGoesOn(policy: Policy, m: Machine, data: seq<byte>)
    requires m.p.state.HeaderValue? && data != [] && !LineEnd(data[0])
    ensures var (n, outcome) := Step(policy, m, data[0]);
            && (outcome.Running? ==>
                  n.p.state.HeaderValue? && (Uncounted(n.p, data[1..], true) <==> Uncounted(m.p, data, true)))
            && (!outcome.Running? ==> outcome.Failed? && Uncounted(m.p, data, true))
  {
    var ch := data[0];
    assert CaseOf(m.p, ch) == ValueCase(m.p, ch) by { hide ValueCase; }
    var k := ValueCase(m.p, ch);
    LengthByte(m.p, ch);
    if !k.next.Fail? {
      ValueKeepsLength(m.p, ch);
    }
    hide CaseOf, ValueNext, AddLengthDigit, Emit, Step, LengthFails;
    LengthUnfold(m.p.contentLength, data);
    if k.next.Fail? {
      FailedStep(policy, m, ch, InvalidContentLength);
    } else {
      PlainStep(policy, m, ch);
    }
  }

  lemma LengthUnfold(n: nat, data: seq<byte>)
    requires data != [] && !LineEnd(data[0])
    ensures LengthFails(n, data) <==>
            if data[0] == SP then LengthFails(n, data[1..])
            else AddLengthDigit(n, data[0]).None? || LengthFails(AddLengthDigit(n, data[0]).value, data[1..])
  {
    hide AddLengthDigit;
  }

  /** A byte inside a loop, its first one already found not to be too many. */
  lemma LoopTrips(policy: Policy, m: Machine, buf: seq<byte>, i: nat, l: Loop, inLoop: bool)
    requires i < |buf| && Bulk(m.p.state) && m.errno == OK && (!inLoop ==> !TooMany(m.nread + 1))
    requires var (n, outcome) := Step(policy, m, buf[i]);
             && (outcome.Running? ==>
                  var loop := if n.p.state == m.p.state then Some(l) else None;
                  LimitAt(policy, n, buf, i + 1, loop).after.errno.HeaderOverflow? <==>
                  Trips(policy, n, buf[i + 1..], loop.Some?))
    ensures LimitLoop(policy, m, buf, i, l).after.errno.HeaderOverflow? <==> Trips(policy, m, buf[i..], inLoop)
  {
    var ch, data := buf[i], buf[i..];
    assert data[0] == ch && data[1..] == buf[i + 1..];
    hide Step, LimitAt, LimitResume, Token, SkipsAll, LengthFails, LineEnd;
    var (n, outcome) := Step(policy, m, ch);
    StepErrno(policy, m, ch);
    ResumeIsStep(policy, m, buf, i);
    BulkStays(policy, m, ch);
    TripsUnfold(policy, m, data, inLoop);
    NoLengthAtLineEnd(m.p, data, inLoop);
    if m.p.state.HeaderField? {
      if outcome.Running? && n.p.state == m.p.state && TooMany(m.nread + 1) {
        StaysTooMany(policy, n, data[1..]);
      }
    } else if !LineEnd(ch) {
      LengthGoesOn(policy, m, data);
      if SkipsAll(m.p.headerState, buf, i) {
        SkipTrips(policy, m, buf, i, inLoop);
      } else if outcome.Running? && TooMany(m.nread + 1) && !Uncounted(m.p, data, inLoop) {
        StaysTooMany(policy, n, data[1..]);
      }
    }
    hide Uncounted;
  }

  lemma NoLengthAtLineEnd(p: Parser, data: seq<byte>, inLoop: bool)
    requires data != []
    ensures Uncounted(p, data, inLoop) ==> p.state.HeaderValue? && !LineEnd(data[0]) && inLoop
  {
  }

  lemma TripsUnfold(policy: Policy, m: Machine, data: seq<byte>, inLoop: bool)
    requires data != []
    ensures var (n, outcome) := Step(policy, m, data[0]);
            Trips(policy, m, data, inLoop) <==>
              || (ParsingHeader(m.p.state) && TooMany(m.nread + 1) && !Uncounted(m.p, data, inLoop))
              || (outcome.Running? && Trips(policy, n, data[1..], Bulk(m.p.state) && n.p.state == m.p.state))
  {
    hide Step, Uncounted;
  }

  lemma SkipTrips(policy: Policy, m: Machine, buf: seq<byte>, i: nat, inLoop: bool)
    requires i < |buf| && m.p.state.HeaderValue? && SkipsAll(m.p.headerState, buf, i)
    ensures Trips(policy, m, buf[i..], inLoop)
  {
    var data := buf[i..];
    forall j | 0 <= j < MAX_HEADER_SIZE ensures !LineEnd(data[j]) {
      assert data[j] == buf[i + j];
    }
    GeneralTrips(policy, m, data, inLoop, MAX_HEADER_SIZE);
  }

  /** http_parser_execute finds the header too long exactly if a byte that counts trips. */
  lemma {:induction false} OverflowsIfTrips(policy: Policy, m: Machine, buf: seq<byte>, i: nat, loop: Option<Loop>)
    requires i <= |buf| && m.errno == OK && (loop.Some? ==> Bulk(m.p.state))
    ensures LimitAt(policy, m, buf, i, loop).after.errno.HeaderOverflow? <==> Trips(policy, m, buf[i..], loop.Some?)
    decreases |buf| - i
  {
    hide Step, Flushed, LimitLoop, LimitResume, Uncounted;
    if i == |buf| {
      assert buf[i..] == [];
    } else {
      var ch, data := buf[i], buf[i..];
      assert data[0] == ch && data[1..] == buf[i + 1..];
      var (n, outcome) := Step(policy, m, ch);
      StepErrno(policy, m, ch);
      StepRunningIsOk(policy, m, ch);
      ResumeIsStep(policy, m, buf, i);
      TripsUnfold(policy, m, data, loop.Some?);
      NoLengthAtLineEnd(m.p, data, loop.Some?);
      var l := if loop.Some? then loop.value else Loop(m.p.headerState, m.nread + 1);
      if outcome.Running? {
        OverflowsIfTrips(policy, n, buf, i + 1, if Bulk(m.p.state) && n.p.state == m.p.state then Some(l) else None);
      }
      if Bulk(m.p.state) && (loop.Some? || !TooMany(m.nread + 1)) {
        LoopTrips(policy, m, buf, i, l, loop.Some?);
      }
      hide Trips;
    }
  }

  /** Byte i of data is a header byte that is one too many, and it is not in a Content-Length that
      fails later. */
  ghost predicate TripsAt(policy: Policy, m: Machine, data: seq<byte>, i: nat, inLoop: bool)
    requires i < |data|
  {
    var r := Run(policy, m, data[..i]);
    && r.outcome.Running? && ParsingHeader(r.m.p.state) && TooMany(r.m.nread + 1)
    && !Uncounted(r.m.p, data[i..], EndsInLoop(policy, m, data[..i], inLoop))
  }

  /** The surplus at the end of data is one too many. */
  ghost predicate TripsBehind(policy: Policy, m: Machine, data: seq<byte>, inLoop: bool) {
    EndsInLoop(policy, m, data, inLoop) && TooMany(Run(policy, m, data).m.nread + 1)
  }

  lemma {:induction false} TripsSomewhere(policy: Policy, m: Machine, data: seq<byte>, inLoop: bool)
    ensures Trips(policy, m, data, inLoop) <==>
            (exists i: nat | i < |data| :: TripsAt(policy, m, data, i, inLoop)) || TripsBehind(policy, m, data, inLoop)
    decreases |data|
  {
    hide Step, Uncounted, TripsAt, TripsBehind;
    if data == [] {
      NothingTripsBehind(policy, m, inLoop);
    } else {
      var (n, outcome) := Step(policy, m, data[0]);
      var rest, goesOn := data[1..], Bulk(m.p.state) && n.p.state == m.p.state;
      TripsFirst(policy, m, data, inLoop);
      TripsBehindNext(policy, m, data, inLoop);
      TripsSomewhere(policy, n, rest, goesOn);
      forall i: nat | i + 1 < |data|
        ensures TripsAt(policy, m, data, i + 1, inLoop) <==> outcome.Running? && TripsAt(policy, n, rest, i, goesOn)
      {
        TripsNext(policy, m, data, i, inLoop);
      }
      if i: nat :| i < |data| && TripsAt(policy, m, data, i, inLoop) {
        assert i > 0 ==> TripsAt(policy, n, rest, i - 1, goesOn) && outcome.Running?;
      }
      if j: nat :| j < |rest| && TripsAt(policy, n, rest, j, goesOn) {
        assert outcome.Running? ==> TripsAt(policy, m, data, j + 1, inLoop);
      }
    }
  }

  lemma NothingTripsBehind(policy: Policy, m: Machine, inLoop: bool)
    ensures TripsBehind(policy, m, [], inLoop) <==> inLoop && TooMany(m.nread + 1)
  {
  }

  lemma TripsFirst(policy: Policy, m: Machine, data: seq<byte>, inLoop: bool)
    requires data != []
    ensures TripsAt(policy, m, data, 0, inLoop) <==>
            ParsingHeader(m.p.state) && TooMany(m.nread + 1) && !Uncounted(m.p, data, inLoop)
  {
    hide Step, Uncounted;
    assert data[..0] == [] && data[0..] == data;
  }

  lemma TripsBehindNext(policy: Policy, m: Machine, data: seq<byte>, inLoop: bool)
    requires data != []
    ensures var (n, outcome) := Step(policy, m, data[0]);
            TripsBehind(policy, m, data, inLoop) <==>
            outcome.Running? && TripsBehind(policy, n, data[1..], Bulk(m.p.state) && n.p.state == m.p.state)
  {
    hide Step;
  }

  lemma TripsNext(policy: Policy, m: Machine, data: seq<byte>, i: nat, inLoop: bool)
    requires i + 1 < |data|
    ensures var (n, outcome) := Step(policy, m, data[0]);
            TripsAt(policy, m, data, i + 1, inLoop) <==>
            outcome.Running? && TripsAt(policy, n, data[1..], i, Bulk(m.p.state) && n.p.state == m.p.state)
  {
    hide Step, Uncounted;
    assert data[..i+1][0] == data[0] && data[..i+1][1..] == data[1..][..i];
    assert data[i+1..] == data[1..][i..];
  }

  /** The limit. A call fails with HPE_HEADER_OVERFLOW exactly if some byte that it reads is a header
      byte that is one too many (unless it belongs to a Content-Length that fails, which is found out
      first), or if the call ends inside a loop over a header name or value and the surplus is one
      too many. */
  lemma OverflowsExactly(policy: Policy, c: Session, data: seq<byte>)
    requires c.errno == OK && data != []
    ensures Limited(policy, c, data).after.errno.HeaderOverflow? <==>
            || (exists i: nat | i < |data| :: TripsAt(policy, Enter(c), data, i, false))
            || (Surplus(policy, c, data) && TooMany(Execute(policy, c, data).after.nread + 1))
  {
    hide LimitAt, Run, Trips, TripsAt, EndsInLoop;
    assert data[0..] == data;
    OverflowsIfTrips(policy, Enter(c), data, 0, None);
    TripsSomewhere(policy, Enter(c), data, false);
    EndsInLoopIs(policy, Enter(c), data, false);
  }

  /** No call overflows whose bytes fit under the limit. */
  lemma FitsUnderLimit(policy: Policy, c: Session, data: seq<byte>)
    requires c.nread + |data| < MAX_HEADER_SIZE && !c.errno.HeaderOverflow?
    ensures !Limited(policy, c, data).after.errno.HeaderOverflow?
    ensures Limited(policy, c, data).outcome.Running? ==> Limited(policy, c, data).after.nread <= c.nread + |data| + 1
  {
    hide LimitAt, Trips, EndOfStream, Run;
    if c.errno == OK && data != [] {
      assert data[0..] == data;
      OverflowsIfTrips(policy, Enter(c), data, 0, None);
      TripsBound(policy, Enter(c), data, false);
      LimitedIsExecute(policy, c, data);
      RunBound(policy, Enter(c), data);
    } else if c.errno == OK {
      EndErrno(policy, c);
    }
  }

  lemma EndErrno(policy: Policy, c: Session)
    requires c.errno == OK
    ensures !EndOfStream(policy, c).after.errno.HeaderOverflow? && !EndOfStream(policy, c).outcome.Running?
  {
    hide Emit, Notified;
  }

  lemma StepBound(policy: Policy, m: Machine, ch: byte)
    ensures Step(policy, m, ch).0.nread <= m.nread + 1
  {
    hide Switch;
    SwitchBound(policy, Count(m), ch);
  }

  lemma {:induction false} SwitchBound(policy: Policy, m: Machine, ch: byte)
    ensures Switch(policy, m, ch).0.nread <= m.nread
    decreases Rank(m.p.state)
  {
    hide CaseOf, Emit, Notified, NoteErrno;
    var (n, signal) := Perform(policy, m, CaseOf(m.p, ch), ch);
    if signal.Again? {
      SwitchBound(policy, n, ch);
    }
  }

  lemma {:induction false} RunBound(policy: Policy, m: Machine, data: seq<byte>)
    ensures Run(policy, m, data).m.nread <= m.nread + |data|
    decreases |data|
  {
    hide Step;
    if data != [] {
      StepBound(policy, m, data[0]);
      if Step(policy, m, data[0]).1.Running? {
        RunBound(policy, Step(policy, m, data[0]).0, data[1..]);
      }
    }
  }

  lemma {:induction false} TripsBound(policy: Policy, m: Machine, data: seq<byte>, inLoop: bool)
    ensures Trips(policy, m, data, inLoop) ==> TooMany(m.nread + |data| + 1)
    decreases |data|
  {
    hide Step, Uncounted;
    if data != [] {
      var (n, outcome) := Step(policy, m, data[0]);
      StepBound(policy, m, data[0]);
      TripsBound(policy, n, data[1..], Bulk(m.p.state) && n.p.state == m.p.state);
    }
  }

  // ---------- what has been reported by then ----------

  /** A trace that the run without a limit has at some point, still running. */
  ghost predicate OnTheWay(policy: Policy, m: Machine, data: seq<byte>, trace: seq<Event>) {
    exists j: nat | j <= |data| :: PassesBy(policy, m, data, j, trace)
  }

  ghost predicate PassesBy(policy: Policy, m: Machine, data: seq<byte>, j: nat, trace: seq<Event>)
    requires j <= |data|
  {
    var r := Run(policy, m, data[..j]);
    r.outcome.Running? && r.m.trace == trace
  }

  lemma PassesFirst(policy: Policy, m: Machine, data: seq<byte>)
    ensures OnTheWay(policy, m, data, m.trace)
  {
    assert data[..0] == [];
    assert PassesBy(policy, m, data, 0, m.trace);
  }

  lemma PassesNext(policy: Policy, m: Machine, data: seq<byte>, trace: seq<Event>)
    requires data != [] && Step(policy, m, data[0]).1.Running?
    requires OnTheWay(policy, Step(policy, m, data[0]).0, data[1..], trace)
    ensures OnTheWay(policy, m, data, trace)
  {
    hide Step;
    var j: nat :| j <= |data[1..]| && PassesBy(policy, Step(policy, m, data[0]).0, data[1..], j, trace);
    assert data[..j+1][0] == data[0] && data[..j+1][1..] == data[1..][..j];
    assert PassesBy(policy, m, data, j + 1, trace);
  }

  /** The cases in which a loop overflows. */
  lemma LoopOverflows(policy: Policy, m: Machine, buf: seq<byte>, i: nat, l: Loop)
    requires i < |buf| && Bulk(m.p.state) && !m.errno.HeaderOverflow?
    ensures var (n, outcome) := Step(policy, m, buf[i]);
            var call := LimitLoop(policy, m, buf, i, l);
            call.after.errno.HeaderOverflow? ==>
              || call.after.trace == m.trace
              || (outcome.Running? && call.after.trace == n.trace)
              || (outcome.Running? && call ==
                    LimitAt(policy, n, buf, i + 1, if n.p.state == m.p.state then Some(l) else None))
  {
    var ch := buf[i];
    StepErrno(policy, m, ch);
    BulkStays(policy, m, ch);
    ResumeIsStep(policy, m, buf, i);
    if ch == CR && m.p.state.HeaderValue? {
      CarriageReturn(policy, m);
    }
    hide Step, LimitAt, LimitResume, Token, SkipsAll;
  }

  lemma {:induction false} OverflowOnTheWay(policy: Policy, m: Machine, buf: seq<byte>, i: nat, loop: Option<Loop>)
    requires i <= |buf| && !m.errno.HeaderOverflow? && (loop.Some? ==> Bulk(m.p.state))
    ensures var call := LimitAt(policy, m, buf, i, loop);
            call.after.errno.HeaderOverflow? ==> OnTheWay(policy, m, buf[i..], call.after.trace)
    decreases |buf| - i
  {
    hide Step, Flushed, LimitLoop, LimitResume, OnTheWay;
    PassesFirst(policy, m, buf[i..]);
    if i < |buf| {
      var ch := buf[i];
      assert buf[i..][0] == ch && buf[i..][1..] == buf[i + 1..];
      var (n, outcome) := Step(policy, m, ch);
      StepErrno(policy, m, ch);
      ResumeIsStep(policy, m, buf, i);
      var l := if loop.Some? then loop.value else Loop(m.p.headerState, m.nread + 1);
      if Bulk(m.p.state) {
        LoopOverflows(policy, m, buf, i, l);
      }
      if outcome.Running? {
        var next := if Bulk(m.p.state) && n.p.state == m.p.state then Some(l) else None;
        OverflowOnTheWay(policy, n, buf, i + 1, next);
        PassesFirst(policy, n, buf[i + 1..]);
        PassesNext(policy, m, buf[i..], n.trace);
        var trace := LimitAt(policy, n, buf, i + 1, next).after.trace;
        if OnTheWay(policy, n, buf[i + 1..], trace) {
          PassesNext(policy, m, buf[i..], trace);
        }
      }
      hide Bulk;
    }
  }
}
