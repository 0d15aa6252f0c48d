/** What a cut does to the limit on the header: when two calls find it too long and one does not. */
module HttpCuts {
  import opened Common
  import opened HttpTypes
  import opened HttpCases
  import opened HttpMachine
  import opened HttpSplit
  import opened HttpInvariant
  import opened HttpTokens
  import opened HttpLimit
  import opened HttpCounting
  import opened HttpStreams

  /** Apart from the trace two calls end alike. */
  ghost predicate EndAlike(a: Call, b: Call) {
    a.outcome == b.outcome && a.count == b.count && a.after.(trace := []) == b.after.(trace := [])
  }

  // ---------- the limit does not look at what was collected ----------

  /** The machines at the cut: the one that goes on, and the one that has reported what it had. */
  ghost predicate AtCut(m: Machine, m': Machine, x: seq<byte>) {
    Crossing(m, m', x) && MarksFit(m.p.state, m.open) && MarksFit(m'.p.state, m'.open)
  }

  /** After a byte they are still at the cut, or the same. */
  ghost predicate CutGoesOn(n: Machine, n': Machine, outcome: Outcome, outcome': Outcome, x: seq<byte>) {
    && outcome' == outcome && n'.p == n.p && n'.errno == n.errno && n'.nread == n.nread
    && (outcome.Running? ==> n == n' || AtCut(n, n', x))
  }

  lemma StepAtCut(policy: Policy, m: Machine, m': Machine, ch: byte, x: seq<byte>)
    requires AtCut(m, m', x)
    ensures var (n, outcome) := Step(policy, m, ch);
            var (n', outcome') := Step(policy, m', ch);
            CutGoesOn(n, n', outcome, outcome', x)
  {
    hide Step, MarksFit;
    StepCrossing(policy, m, m', ch, x);
    StepKeepsMarks(policy, m, ch);
    StepKeepsMarks(policy, m', ch);
  }

  lemma {:induction false} LimitAtCut(policy: Policy, m: Machine, m': Machine, buf: seq<byte>, i: nat, loop: Option<Loop>, x: seq<byte>)
    requires AtCut(m, m', x) && i <= |buf|
    ensures EndAlike(LimitAt(policy, m, buf, i, loop), LimitAt(policy, m', buf, i, loop))
    decreases |buf| - i
  {
    hide Step, AtCut, Flushed, LimitLoop, LimitResume, Bulk;
    assert m'.p == m.p && m'.errno == m.errno && m'.nread == m.nread by { AtCutIs(m, m', x); }
    if i < |buf| {
      StepAtCut(policy, m, m', buf[i], x);
      var (n, outcome) := Step(policy, m, buf[i]);
      var (n', outcome') := Step(policy, m', buf[i]);
      if outcome.Running? && n != n' {
        LimitAtCut(policy, n, n', buf, i + 1, None, x);
        var l := if loop.Some? then loop.value else Loop(m.p.headerState, m.nread + 1);
        LimitAtCut(policy, n, n', buf, i + 1, Some(l), x);
      }
      ResumeIsStep(policy, m, buf, i);
      ResumeIsStep(policy, m', buf, i);
      LoopAtCut(policy, m, m', buf, i, if loop.Some? then loop.value else Loop(m.p.headerState, m.nread + 1));
      hide LimitAt;
    }
  }

  lemma AtCutIs(m: Machine, m': Machine, x: seq<byte>)
    requires AtCut(m, m', x)
    ensures m'.p == m.p && m'.errno == m.errno && m'.nread == m.nread
  {
  }

  lemma LoopAtCut(policy: Policy, m: Machine, m': Machine, buf: seq<byte>, i: nat, l: Loop)
    requires i < |buf| && m'.p == m.p && m'.errno == m.errno && m'.nread == m.nread
    requires var (n, outcome) := Step(policy, m, buf[i]);
             var (n', outcome') := Step(policy, m', buf[i]);
             && outcome' == outcome && n'.p == n.p && n'.errno == n.errno && n'.nread == n.nread
             && (outcome.Running? ==>
                   EndAlike(LimitAt(policy, n, buf, i + 1, Some(l)), LimitAt(policy, n', buf, i + 1, Some(l))))
    requires EndAlike(LimitResume(policy, Count(m), buf, i), LimitResume(policy, Count(m'), buf, i))
    ensures EndAlike(LimitLoop(policy, m, buf, i, l), LimitLoop(policy, m', buf, i, l))
  {
    if m.p.state.HeaderField? {
      FieldLoopAtCut(policy, m, m', buf, i, l);
    } else {
      ValueLoopAtCut(policy, m, m', buf, i, l);
    }
    hide Step, LimitAt, LimitResume, LimitLoop, EndAlike;
  }

  lemma FieldLoopAtCut(policy: Policy, m: Machine, m': Machine, buf: seq<byte>, i: nat, l: Loop)
    requires i < |buf| && m.p.state.HeaderField? && m'.p == m.p && m'.nread == m.nread
    requires var (n, outcome) := Step(policy, m, buf[i]);
             var (n', outcome') := Step(policy, m', buf[i]);
             outcome.Running? ==> EndAlike(LimitAt(policy, n, buf, i + 1, Some(l)), LimitAt(policy, n', buf, i + 1, Some(l)))
    requires EndAlike(LimitResume(policy, Count(m), buf, i), LimitResume(policy, Count(m'), buf, i))
    ensures EndAlike(LimitLoop(policy, m, buf, i, l), LimitLoop(policy, m', buf, i, l))
  {
    hide Step, LimitAt, LimitResume, Token, SkipsAll, TooMany;
    FieldRuns(policy, m, buf[i]);
  }

  lemma ValueLoopAtCut(policy: Policy, m: Machine, m': Machine, buf: seq<byte>, i: nat, l: Loop)
    requires i < |buf| && !m.p.state.HeaderField? && m'.p == m.p && m'.nread == m.nread
    requires var (n, outcome) := Step(policy, m, buf[i]);
             var (n', outcome') := Step(policy, m', buf[i]);
             && outcome' == outcome && n'.p == n.p && n'.errno == n.errno && n'.nread == n.nread
             && (outcome.Running? ==>
                   EndAlike(LimitAt(policy, n, buf, i + 1, Some(l)), LimitAt(policy, n', buf, i + 1, Some(l))))
    requires EndAlike(LimitResume(policy, Count(m), buf, i), LimitResume(policy, Count(m'), buf, i))
    ensures EndAlike(LimitLoop(policy, m, buf, i, l), LimitLoop(policy, m', buf, i, l))
  {
    hide Step, LimitAt, LimitResume, Token, SkipsAll, TooMany;
  }

  lemma FieldRuns(policy: Policy, m: Machine, ch: byte)
    ensures m.p.state.HeaderField? && Token(ch) != 0 ==> Step(policy, m, ch).1.Running?
  {
    if m.p.state.HeaderField? {
      FieldStays(policy, m, ch);
    }
    hide Step;
  }

  // ---------- the limit does not look back ----------

  function Shifted(call: Call, k: nat): Call { call.(count := call.count + k) }

  lemma SkipsShifted(h: HeaderState, a: seq<byte>, buf: seq<byte>, i: nat)
    ensures SkipsAll(h, a + buf, |a| + i) <==> SkipsAll(h, buf, i)
  {
    if SkipsAll(h, a + buf, |a| + i) {
      forall j | i <= j < i + MAX_HEADER_SIZE ensures !LineEnd(buf[j]) {
        assert (a + buf)[|a| + j] == buf[j];
      }
    }
    if SkipsAll(h, buf, i) {
      forall j | |a| + i <= j < |a| + i + MAX_HEADER_SIZE ensures !LineEnd((a + buf)[j]) {
        assert (a + buf)[j] == buf[j - |a|];
      }
    }
  }

  lemma {:induction false} LimitShifted(policy: Policy, m: Machine, a: seq<byte>, buf: seq<byte>, i: nat, loop: Option<Loop>)
    requires i <= |buf|
    ensures LimitAt(policy, m, a + buf, |a| + i, loop) == Shifted(LimitAt(policy, m, buf, i, loop), |a|)
    decreases |buf| - i
  {
    hide Step, Flushed, LimitLoop, LimitResume, Bulk;
    if i < |buf| {
      var more := a + buf;
      assert more[|a| + i] == buf[i];
      var (n, outcome) := Step(policy, m, buf[i]);
      var l := if loop.Some? then loop.value else Loop(m.p.headerState, m.nread + 1);
      LimitShifted(policy, n, a, buf, i + 1, None);
      LimitShifted(policy, n, a, buf, i + 1, Some(l));
      ResumeIsStep(policy, m, buf, i);
      ResumeIsStep(policy, m, more, |a| + i);
      LoopShifted(policy, m, a, buf, i, l);
    }
  }

  lemma LoopShifted(policy: Policy, m: Machine, a: seq<byte>, buf: seq<byte>, i: nat, l: Loop)
    requires i < |buf|
    requires var n := Step(policy, m, buf[i]).0;
             LimitAt(policy, n, a + buf, |a| + i + 1, Some(l)) == Shifted(LimitAt(policy, n, buf, i + 1, Some(l)), |a|)
    requires LimitResume(policy, Count(m), a + buf, |a| + i) == Shifted(LimitResume(policy, Count(m), buf, i), |a|)
    ensures LimitLoop(policy, m, a + buf, |a| + i, l) == Shifted(LimitLoop(policy, m, buf, i, l), |a|)
  {
    SkipsShifted(m.p.headerState, a, buf, i);
    hide Step, LimitAt, LimitResume, Token, SkipsAll;
  }

  // ---------- reading on behind a ----------

  /** A general value that no line end ends goes on. */
  lemma {:induction false} GeneralGoesOn(policy: Policy, m: Machine, data: seq<byte>, inLoop: bool)
    requires m.p.state.HeaderValue? && m.p.headerState.General? && (inLoop || data != [])
    requires forall i | 0 <= i < |data| :: !LineEnd(data[i])
    ensures EndsInLoop(policy, m, data, inLoop)
    decreases |data|
  {
    hide Step;
    if data != [] {
      GeneralByte(policy, m, data[0]);
      GeneralGoesOn(policy, Step(policy, m, data[0]).0, data[1..], true);
    }
  }

  /** If memchr finds no line end in a and b together, then either not in a alone, or a ends inside
      the value. */
  lemma SkipsInBoth(policy: Policy, m: Machine, a: seq<byte>, b: seq<byte>, i: nat)
    requires i < |a| && m.p.state.HeaderValue? && SkipsAll(m.p.headerState, a + b, i)
    ensures SkipsAll(m.p.headerState, a, i) || EndsInLoop(policy, m, a[i..], true)
  {
    if i + MAX_HEADER_SIZE <= |a| {
      forall j | i <= j < i + MAX_HEADER_SIZE ensures !LineEnd(a[j]) {
        assert (a + b)[j] == a[j];
      }
    } else {
      forall j | 0 <= j < |a[i..]| ensures !LineEnd(a[i..][j]) {
        assert (a + b)[i + j] == a[i..][j];
      }
      GeneralGoesOn(policy, m, a[i..], true);
    }
  }

  /** A call that reads all of a, and does not end inside a loop, goes on with b from where it was. */
  lemma {:induction false} LimitGoesOn(policy: Policy, m: Machine, a: seq<byte>, b: seq<byte>, i: nat, loop: Option<Loop>)
    requires i <= |a| && m.errno == OK && (loop.Some? ==> Bulk(m.p.state))
    requires LimitAt(policy, m, a, i, loop).outcome.Running? && !EndsInLoop(policy, m, a[i..], loop.Some?)
    ensures Run(policy, m, a[i..]).outcome.Running?
    ensures LimitAt(policy, m, a + b, i, loop) == LimitAt(policy, Run(policy, m, a[i..]).m, a + b, |a|, None)
    decreases |a| - i
  {
    hide Step, Flushed, LimitLoop, LimitResume;
    if i == |a| {
      assert a[i..] == [];
    } else {
      var ch := a[i];
      assert (a + b)[i] == ch && a[i..][0] == ch && a[i..][1..] == a[i + 1..];
      var (n, outcome) := Step(policy, m, ch);
      StepRunningIsOk(policy, m, ch);
      ResumeIsStep(policy, m, a, i);
      ResumeIsStep(policy, m, a + b, i);
      var l := if loop.Some? then loop.value else Loop(m.p.headerState, m.nread + 1);
      if Bulk(m.p.state) {
        BulkStays(policy, m, ch);
        LoopRuns(policy, m, a, i, l);
        LoopGoesOnBehind(policy, m, a, b, i, l);
      }
      LimitGoesOn(policy, n, a, b, i + 1, if Bulk(m.p.state) && n.p.state == m.p.state then Some(l) else None);
    }
  }

  lemma LoopGoesOnBehind(policy: Policy, m: Machine, a: seq<byte>, b: seq<byte>, i: nat, l: Loop)
    requires i < |a| && Bulk(m.p.state) && LimitLoop(policy, m, a, i, l).outcome.Running?
    requires !EndsInLoop(policy, m, a[i..], true)
    ensures LimitLoop(policy, m, a + b, i, l) ==
              if !KeepsInLoop(m.p.state, a[i]) then LimitResume(policy, Count(m), a + b, i)
              else LimitAt(policy, Step(policy, m, a[i]).0, a + b, i + 1, Some(l))
    ensures KeepsInLoop(m.p.state, a[i]) ==> Step(policy, m, a[i]).1.Running?
  {
    assert (a + b)[i] == a[i];
    if m.p.state.HeaderValue? && SkipsAll(m.p.headerState, a + b, i) {
      SkipsInBoth(policy, m, a, b, i);
    }
    BulkStays(policy, m, a[i]);
    hide Step, LimitAt, LimitResume, Token, SkipsAll, EndsInLoop;
  }

  // ---------- too long, across a cut ----------

  lemma {:induction false} LengthFailsAppend(n: nat, a: seq<byte>, b: seq<byte>)
    ensures LengthFails(n, a) ==> LengthFails(n, a + b)
    decreases |a|
  {
    hide AddLengthDigit;
    if a != [] {
      assert (a + b)[1..] == a[1..] + b;
      LengthFailsAppend(n, a[1..], b);
      if AddLengthDigit(n, a[0]).Some? {
        LengthFailsAppend(AddLengthDigit(n, a[0]).value, a[1..], b);
      }
    }
  }

  /** If nothing in a is one too many, it is decided by b, from where a ended. */
  lemma {:induction false} TripsBehindCut(policy: Policy, m: Machine, a: seq<byte>, b: seq<byte>, inLoop: bool)
    requires Run(policy, m, a).outcome.Running? && !Trips(policy, m, a, inLoop) && b != []
    ensures Trips(policy, m, a + b, inLoop) <==>
            Trips(policy, Run(policy, m, a).m, b, EndsInLoop(policy, m, a, inLoop))
    decreases |a|
  {
    hide Step;
    if a == [] {
      assert a + b == b;
    } else {
      assert (a + b)[1..] == a[1..] + b;
      var n := Step(policy, m, a[0]).0;
      TripsBehindCut(policy, n, a[1..], b, Bulk(m.p.state) && n.p.state == m.p.state);
      LengthFailsAppend(m.p.contentLength, a, b);
      hide Bulk, LengthFails;
    }
  }

  lemma {:induction false} TripsAtCut(policy: Policy, m: Machine, m': Machine, data: seq<byte>, inLoop: bool, x: seq<byte>)
    requires AtCut(m, m', x)
    ensures Trips(policy, m, data, inLoop) <==> Trips(policy, m', data, inLoop)
    decreases |data|
  {
    hide Step, AtCut, Uncounted;
    AtCutIs(m, m', x);
    if data != [] {
      StepAtCut(policy, m, m', data[0], x);
      var (n, outcome) := Step(policy, m, data[0]);
      var n' := Step(policy, m', data[0]).0;
      if outcome.Running? && n != n' {
        TripsAtCut(policy, n, n', data[1..], Bulk(m.p.state) && n.p.state == m.p.state, x);
      }
    }
  }

  lemma {:induction false} SwitchNreadGrows(policy: Policy, m: Machine, ch: byte, k: nat)
    requires m.nread <= k
    ensures Switch(policy, m, ch).0.nread <= Switch(policy, m.(nread := k), ch).0.nread
    decreases Rank(m.p.state)
  {
    hide CaseOf, Emit, Notified, NoteErrno;
    var (n, signal) := Perform(policy, m, CaseOf(m.p, ch), ch);
    if signal.Again? {
      SwitchNreadGrows(policy, n, ch, Perform(policy, m.(nread := k), CaseOf(m.p, ch), ch).0.nread);
    }
  }

  lemma StepNreadGrows(policy: Policy, m: Machine, ch: byte, k: nat)
    requires m.nread <= k
    ensures Step(policy, m, ch).0.nread <= Step(policy, m.(nread := k), ch).0.nread
  {
    hide Switch;
    var m' := Count(m.(nread := k));
    assert m' == Count(m).(nread := m'.nread);
    SwitchNreadGrows(policy, Count(m), ch, m'.nread);
  }

  /** What is too long is too long with a higher count, also if the count begins outside of a loop. */
  lemma {:induction false} HigherTrips(policy: Policy, m: Machine, data: seq<byte>, inLoop: bool, k: nat)
    requires m.nread <= k && Trips(policy, m, data, inLoop)
    ensures Trips(policy, m.(nread := k), data, inLoop)
    ensures data != [] ==> Trips(policy, m.(nread := k), data, false)
    decreases |data|
  {
    hide Step;
    if data != [] {
      StepNread(policy, m, data[0], k);
      StepNreadGrows(policy, m, data[0], k);
      var (n, outcome) := Step(policy, m, data[0]);
      var goesOn := Bulk(m.p.state) && n.p.state == m.p.state;
      if outcome.Running? && Trips(policy, n, data[1..], goesOn) {
        HigherTrips(policy, n, data[1..], goesOn, Step(policy, m.(nread := k), data[0]).0.nread);
      }
    }
    hide Bulk, LengthFails, Trips;
  }

  // ---------- one cut ----------

  /** The machine after a first call, as the second call would have it with the same count. */
  ghost predicate Resumes(m: Machine, m': Machine) { m == m' || exists x :: AtCut(m, m', x) }

  lemma EnterResumes(policy: Policy, c: Session, a: seq<byte>, k: nat)
    requires CanGoOn(c) && a != [] && Run(policy, Enter(c), a).outcome.Running?
    ensures var m := Run(policy, Enter(c), a).m;
            Resumes(m.(nread := k), Enter(Session(m.p, m.errno, k, Flushed(m))))
  {
    hide Run, Emit;
    var m := Run(policy, Enter(c), a).m;
    var m' := Enter(Session(m.p, m.errno, k, Flushed(m)));
    EnterFits(c);
    RunKeepsMarks(policy, Enter(c), a);
    RunCollects(policy, Enter(c), a);
    if m.open.Closed? {
      assert m' == m.(nread := k);
    } else {
      assert m.open.bytes + [] == m.open.bytes;
      assert AtCut(m.(nread := k), m', m.open.bytes);
    }
  }

  /** The session after a first call that reads all of a. */
  lemma FirstCall(policy: Policy, c: Session, a: seq<byte>)
    requires CanGoOn(c) && a != [] && Limited(policy, c, a).outcome.Running?
    ensures var r := Run(policy, Enter(c), a);
            && r.outcome.Running? && r.m.errno == OK
            && Limited(policy, c, a).after ==
                 Session(r.m.p, OK, r.m.nread + if Surplus(policy, c, a) then 1 else 0, Flushed(r.m))
            && Limited(policy, c, a).count == |a|
  {
    RunningIsNoOverflow(policy, c, a);
    LimitedIsExecute(policy, c, a);
    RunningIsOk(policy, Enter(c), a);
    hide Run, LimitAt, Surplus, Flushed, Enter;
  }

  /** What comes behind a cut, when the count is as it would be without it. */
  lemma BehindCut(policy: Policy, m: Machine, m': Machine, b: seq<byte>)
    requires Resumes(m, m')
    ensures EndAlike(LimitAt(policy, m, b, 0, None), LimitAt(policy, m', b, 0, None))
  {
    hide LimitAt, AtCut;
    if m != m' {
      var x :| AtCut(m, m', x);
      LimitAtCut(policy, m, m', b, 0, None, x);
    }
  }

  /** A cut at which there is no surplus makes no difference but to the reporting of data: two calls
      end like one, with the same count of header bytes, and find the header too long exactly if one
      call does. */
  lemma CutWithoutSurplus(policy: Policy, c: Session, a: seq<byte>, b: seq<byte>)
    requires CanGoOn(c) && a != [] && b != [] && Limited(policy, c, a).outcome.Running? && !Surplus(policy, c, a)
    ensures EndAlike(Limited(policy, c, a + b), Shifted(Limited(policy, Limited(policy, c, a).after, b), |a|))
  {
    hide Run, LimitAt, Enter, AtCut, EndsInLoop, Resumes, Flushed;
    FirstCall(policy, c, a);
    EndsInLoopIs(policy, Enter(c), a, false);
    assert a[0..] == a && a + b != [];
    var m := Run(policy, Enter(c), a).m;
    SameErrno(c);
    LimitGoesOn(policy, Enter(c), a, b, 0, None);
    LimitShifted(policy, m, a, b, 0, None);
    EnterResumes(policy, c, a, m.nread);
    BehindCut(policy, m, Enter(Limited(policy, c, a).after), b);
  }

  /** Somewhere in data a header byte is one too many, or the surplus behind it is. */
  ghost predicate TooLong(policy: Policy, m: Machine, data: seq<byte>, inLoop: bool) {
    (exists i: nat | i < |data| :: TripsAt(policy, m, data, i, inLoop)) || TripsBehind(policy, m, data, inLoop)
  }

  /** One call finds the header too long exactly if a byte of the second buffer, counted on, is one too
      many. */
  lemma WholeWithSurplus(policy: Policy, c: Session, a: seq<byte>, b: seq<byte>)
    requires CanGoOn(c) && a != [] && b != [] && Limited(policy, c, a).outcome.Running? && Surplus(policy, c, a)
    ensures var m := Run(policy, Enter(c), a).m;
            Limited(policy, c, a + b).after.errno.HeaderOverflow? <==> Trips(policy, m, b, true)
  {
    hide Run, LimitAt, Enter, EndsInLoop, Trips, Flushed;
    FirstCall(policy, c, a);
    RunningIsNoOverflow(policy, c, a);
    EndsInLoopIs(policy, Enter(c), a, false);
    assert a[0..] == a && (a + b)[0..] == a + b && a + b != [];
    SameErrno(c);
    OverflowsIfTrips(policy, Enter(c), a, 0, None);
    OverflowsIfTrips(policy, Enter(c), a + b, 0, None);
    TripsBehindCut(policy, Enter(c), a, b, false);
  }

  /** Two calls do exactly if one is that is counted one higher. */
  lemma SecondWithSurplus(policy: Policy, c: Session, a: seq<byte>, b: seq<byte>)
    requires CanGoOn(c) && a != [] && b != [] && Limited(policy, c, a).outcome.Running? && Surplus(policy, c, a)
    ensures var m := Run(policy, Enter(c), a).m;
            Limited(policy, Limited(policy, c, a).after, b).after.errno.HeaderOverflow? <==>
            Trips(policy, m.(nread := m.nread + 1), b, false)
  {
    hide Run, LimitAt, Enter, AtCut, Trips, Flushed;
    FirstCall(policy, c, a);
    var m := Run(policy, Enter(c), a).m;
    var higher, m' := m.(nread := m.nread + 1), Enter(Limited(policy, c, a).after);
    assert b[0..] == b;
    EnterResumes(policy, c, a, m.nread + 1);
    SameErrno(Limited(policy, c, a).after);
    OverflowsIfTrips(policy, m', b, 0, None);
    if higher != m' {
      var x :| AtCut(higher, m', x);
      TripsAtCut(policy, higher, m', b, false, x);
    }
  }

  lemma SameErrno(c: Session)
    ensures Enter(c).errno == c.errno
  {
  }

  /** A cut at which there is a surplus. One call finds the header too long exactly if a header byte of
      b, counted on from where a ended, is one too many; two calls, exactly if one is that is counted
      one higher. So two calls find too long what one does, and the difference is exactly where the
      surplus makes it. */
  lemma CutWithSurplus(policy: Policy, c: Session, a: seq<byte>, b: seq<byte>)
    requires CanGoOn(c) && a != [] && b != [] && Limited(policy, c, a).outcome.Running? && Surplus(policy, c, a)
    ensures var m := Run(policy, Enter(c), a).m;
            var whole, second := Limited(policy, c, a + b), Limited(policy, Limited(policy, c, a).after, b);
            && (whole.after.errno.HeaderOverflow? <==> TooLong(policy, m, b, true))
            && (second.after.errno.HeaderOverflow? <==> TooLong(policy, m.(nread := m.nread + 1), b, false))
            && (whole.after.errno.HeaderOverflow? ==> second.after.errno.HeaderOverflow?)
  {
    hide Run, Limited, Enter, Trips, TripsAt, TripsBehind, Surplus;
    WholeWithSurplus(policy, c, a, b);
    SecondWithSurplus(policy, c, a, b);
    var m := Run(policy, Enter(c), a).m;
    TripsSomewhere(policy, m, b, true);
    TripsSomewhere(policy, m.(nread := m.nread + 1), b, false);
    if Trips(policy, m, b, true) {
      HigherTrips(policy, m, b, true, m.nread + 1);
    }
  }

  /** The cut that makes a header too long: with nread two below the limit, a character of a name in
      one buffer and the colon in the next are too long, and in one buffer they are not. */
  lemma CutMakesTooLong()
    ensures var p := InitialParser(Request).(state := HeaderField, headerState := General);
            var c := Session(p, OK, 80 * 1024 - 2, []);
            var first := Limited(Willing(), c, ['x' as int]);
            && CanGoOn(c) && first.outcome.Running?
            && Limited(Willing(), first.after, [':' as int]).after.errno.HeaderOverflow?
            && !Limited(Willing(), c, ['x' as int, ':' as int]).after.errno.HeaderOverflow?
  {
    var p := InitialParser(Request).(state := HeaderField, headerState := General);
    var c := Session(p, OK, 80 * 1024 - 2, []);
    var one: seq<byte>, two: seq<byte> := ['x' as int], ['x' as int, ':' as int];
    hide CaseOf, LimitAt;
    InAName(p);
    NameByte(Enter(c), one, 0);
    var n := NameGoesOn(Enter(c), 'x' as int);
    NameBufferEnds(n, one, Loop(General, MAX_HEADER_SIZE - 1));
    ColonIsTooMuch(Enter(Limited(Willing(), c, one).after));
    NameByte(Enter(c), two, 0);
    ColonFits(n, two, Loop(General, MAX_HEADER_SIZE - 1));
  }

  lemma InAName(p: Parser)
    requires p == InitialParser(Request).(state := HeaderField, headerState := General)
    ensures Inv(p)
  {
  }

  function NameGoesOn(m: Machine, ch: byte): Machine {
    m.(nread := m.nread + 1, open := if m.open.Open? then Open(m.open.kind, m.open.bytes + [ch]) else m.open)
  }

  lemma NameStep(policy: Policy, m: Machine, ch: byte)
    requires m.p.state.HeaderField? && m.p.headerState.General? && Token(ch) != 0
    ensures Step(policy, m, ch) == (NameGoesOn(m, ch), Running)
  {
    BulkCase(m.p, ch);
    hide CaseOf, Token;
    PlainStep(policy, m, ch);
  }

  lemma BulkCase(p: Parser, ch: byte)
    requires p.state.HeaderField?
    ensures CaseOf(p, ch) == FieldCase(p, ch)
  {
    hide FieldCase;
  }

  /** The first byte of a buffer that begins inside a name. */
  lemma NameByte(m: Machine, buf: seq<byte>, i: nat)
    requires i < |buf| && m.p.state.HeaderField? && m.p.headerState.General? && Token(buf[i]) != 0
    requires !TooMany(m.nread + 1)
    ensures LimitAt(Willing(), m, buf, i, None) ==
              LimitAt(Willing(), NameGoesOn(m, buf[i]), buf, i + 1, Some(Loop(General, m.nread + 1)))
  {
    NameStep(Willing(), m, buf[i]);
    hide Step, Token;
  }

  lemma NameBufferEnds(m: Machine, buf: seq<byte>, l: Loop)
    requires !TooMany(m.nread + 1)
    ensures LimitAt(Willing(), m, buf, |buf|, Some(l)) ==
              Call(Session(m.p, m.errno, m.nread + 1, Flushed(m)), |buf|, Running)
  {
  }

  lemma ColonIsTooMuch(m: Machine)
    requires m.p.state.HeaderField? && TooMany(m.nread + 1)
    ensures LimitAt(Willing(), m, [':' as int], 0, None).after.errno.HeaderOverflow?
  {
  }

  lemma ColonFits(m: Machine, buf: seq<byte>, l: Loop)
    requires |buf| == 2 && buf[1] == ':' as int && m.p.state.HeaderField? && m.errno.OK? && !TooMany(m.nread + 1)
    ensures !LimitAt(Willing(), m, buf, 1, Some(l)).after.errno.HeaderOverflow?
  {
    BulkCase(m.p, ':' as int);
    hide CaseOf;
    ResumeIsStep(Willing(), m, buf, 1);
    var (n, outcome) := Step(Willing(), m, ':' as int);
    StepErrno(Willing(), m, ':' as int);
    assert outcome.Running? && n.errno.OK?;
    assert LimitAt(Willing(), n, buf, 2, None).after.errno.OK?;
    hide Step;
  }
}
