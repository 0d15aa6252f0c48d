/** The parser object on whole streams: buffers may be cut anywhere, and connections are framed. */
module HttpStreams {
  import opened Common
  import opened HttpTypes
  import opened HttpMachine
  import opened HttpSplit
  import opened HttpInvariant
  import opened HttpTokens
  import opened HttpLimit
  import opened HttpCounting
  import opened HttpFraming
  import opened HttpExecute

  /** A parser that can go on. */
  ghost predicate CanGoOn(c: Session) { c.errno == OK && Inv(c.p) && NreadFits(c.p, c.nread) }

  /** Apart from nread and the trace two calls end alike. */
  ghost predicate Alike(a: Call, b: Call) {
    a.outcome == b.outcome && a.count == b.count && a.after.p == b.after.p && a.after.errno == b.after.errno
  }

  // ---------- one cut ----------

  /** The machine fails inside the token that is open after a exactly if the bytes of b make it. */
  lemma CutFails(policy: Policy, c: Session, a: seq<byte>, b: seq<byte>)
    requires CanGoOn(c) && a != [] && Execute(policy, c, a).outcome.Running?
    ensures FailsInsideToken(policy, Run(policy, Enter(c), a).m, b) <==> TokenFails(Execute(policy, c, a).after.p, b)
    ensures CanGoOn(Execute(policy, c, a).after)
  {
    EnterFits(c);
    RunKeepsMarks(policy, Enter(c), a);
    RunKeepsInv(policy, Enter(c), a);
    RunningIsOk(policy, Enter(c), a);
    var m := Run(policy, Enter(c), a).m;
    hide Run, Inv, FailsInsideToken, TokenFails, MarksFit, Enter;
    if m.open.Open? {
      FailsInsideIff(policy, m, b);
    } else {
      ClosedNeverFails(policy, m, b);
    }
  }

  lemma EnterFits(c: Session)
    ensures MarksFit(c.p.state, Enter(c).open) && Enter(c).p == c.p && Enter(c).nread == c.nread && Enter(c).errno == c.errno
  {
  }

  lemma ClosedNeverFails(policy: Policy, m: Machine, data: seq<byte>)
    requires m.open.Closed? && MarksFit(m.p.state, m.open)
    ensures !FailsInsideToken(policy, m, data) && !TokenFails(m.p, data)
  {
  }

  /** Split invariance. If a first call reads all of a, then a second call with b ends like one call
      with a + b, as long as the header is not found too long: with the same result, parser, error
      and number of bytes. The traces are equal, up to joining adjacent data, exactly if the bytes of
      b do not make the token fail that is open after a. */
  lemma CutOnce(policy: Policy, c: Session, a: seq<byte>, b: seq<byte>)
    requires CanGoOn(c) && a != [] && b != [] && Limited(policy, c, a).outcome.Running?
    requires !Limited(policy, Limited(policy, c, a).after, b).after.errno.HeaderOverflow?
    requires !Limited(policy, c, a + b).after.errno.HeaderOverflow?
    ensures var first := Limited(policy, c, a);
            var second := Limited(policy, first.after, b);
            var whole := Limited(policy, c, a + b);
            && first.count == |a|
            && Alike(whole, second.(count := first.count + second.count))
            && (whole.after.trace == second.after.trace <==> !TokenFails(first.after.p, b))
  {
    hide Run, LimitAt, Inv, FailsInsideToken, TokenFails, EndOfStream, Enter, Surplus, Reported;
    var first, machine := Limited(policy, c, a), Execute(policy, c, a);
    RunningIsNoOverflow(policy, c, a);
    LimitedIsExecute(policy, c, a);
    CutFails(policy, c, a, b);
    SplitInvariance(policy, c, a, b);
    LimitedIsExecute(policy, c, a + b);
    LimitedIsExecute(policy, first.after, b);
    assert first.after == machine.after.(nread := first.after.nread);
    ExecuteNread(policy, machine.after, b, first.after.nread);
    hide Limited, Execute;
  }

  lemma RunningIsNoOverflow(policy: Policy, c: Session, data: seq<byte>)
    requires c.errno == OK && data != [] && Limited(policy, c, data).outcome.Running?
    ensures !Limited(policy, c, data).after.errno.HeaderOverflow?
  {
    RunningHasNoOverflow(policy, Enter(c), data, 0, None);
  }

  lemma {:induction false} RunningHasNoOverflow(policy: Policy, m: Machine, buf: seq<byte>, i: nat, loop: Option<Loop>)
    requires i <= |buf| && m.errno == OK && (loop.Some? ==> Bulk(m.p.state))
    ensures LimitAt(policy, m, buf, i, loop).outcome.Running? ==> LimitAt(policy, m, buf, i, loop).after.errno == OK
    decreases |buf| - i
  {
    hide Step, Flushed, LimitLoop, LimitResume;
    if i < |buf| {
      var ch := buf[i];
      var (n, outcome) := Step(policy, m, ch);
      StepRunningIsOk(policy, m, ch);
      ResumeIsStep(policy, m, buf, i);
      var l := if loop.Some? then loop.value else Loop(m.p.headerState, m.nread + 1);
      if Bulk(m.p.state) {
        BulkStays(policy, m, ch);
        LoopRuns(policy, m, buf, i, l);
      }
      if outcome.Running? {
        RunningHasNoOverflow(policy, n, buf, i + 1, if Bulk(m.p.state) && n.p.state == m.p.state then Some(l) else None);
      }
    }
  }

  lemma LoopRuns(policy: Policy, m: Machine, buf: seq<byte>, i: nat, l: Loop)
    requires i < |buf| && Bulk(m.p.state)
    ensures var (n, outcome) := Step(policy, m, buf[i]);
            var call := LimitLoop(policy, m, buf, i, l);
            call.outcome.Running? ==>
              || (call == LimitResume(policy, Count(m), buf, i) && (outcome.Running? ==> n.p.state != m.p.state))
              || (outcome.Running? && n.p.state == m.p.state && call == LimitAt(policy, n, buf, i + 1, Some(l)))
  {
    BulkStays(policy, m, buf[i]);
    hide Step, LimitAt, LimitResume, Token, SkipsAll;
  }

  // ---------- any number of cuts ----------

  /** Calls the parser with one buffer after the other while the connection goes on. */
  function FeedLimited(policy: Policy, c: Session, buffers: seq<seq<byte>>): Call
    requires buffers != []
    decreases |buffers|
  {
    var first := Limited(policy, c, buffers[0]);
    if |buffers| == 1 || !first.outcome.Running? then first
    else
      var rest := FeedLimited(policy, first.after, buffers[1..]);
      rest.(count := first.count + rest.count)
  }

  /** At some cut a token is open that the bytes behind the cut make fail. */
  predicate CutShows(policy: Policy, c: Session, buffers: seq<seq<byte>>)
    requires buffers != []
    decreases |buffers|
  {
    var first := Limited(policy, c, buffers[0]);
    && |buffers| > 1 && first.outcome.Running?
    && (TokenFails(first.after.p, Flatten(buffers[1..])) || CutShows(policy, first.after, buffers[1..]))
  }

  /** Without an overflow the cut calls do what the machine does without a limit. */
  lemma {:induction false} FeedIsMachine(policy: Policy, c: Session, k: nat, buffers: seq<seq<byte>>)
    requires CanGoOn(c) && NreadFits(c.p, k) && buffers != [] && forall i | 0 <= i < |buffers| :: buffers[i] != []
    requires !FeedLimited(policy, c, buffers).after.errno.HeaderOverflow?
    ensures Alike(FeedLimited(policy, c, buffers), Feed(policy, c.(nread := k), buffers))
    ensures FeedLimited(policy, c, buffers).after.trace == Feed(policy, c.(nread := k), buffers).after.trace
    ensures CutShows(policy, c, buffers) <==> Shows(policy, c.(nread := k), buffers)
    decreases |buffers|
  {
    hide Limited, Execute, Inv, TokenFails, FailsInsideToken, Run, Surplus, Enter;
    var a := buffers[0];
    var first := Limited(policy, c, a);
    if first.outcome.Running? {
      RunningIsNoOverflow(policy, c, a);
    }
    LimitedIsExecute(policy, c, a);
    ExecuteNread(policy, c, a, k);
    if |buffers| > 1 && first.outcome.Running? {
      CutFails(policy, c.(nread := k), a, Flatten(buffers[1..]));
      var machine := Execute(policy, c.(nread := k), a);
      NreadFitsAfter(policy, c, a);
      assert machine.after == first.after.(nread := machine.after.nread);
      FeedIsMachine(policy, first.after, machine.after.nread, buffers[1..]);
    }
  }

  lemma NreadFitsAfter(policy: Policy, c: Session, a: seq<byte>)
    requires CanGoOn(c) && a != [] && Limited(policy, c, a).outcome.Running?
    ensures CanGoOn(Limited(policy, c, a).after)
  {
    hide Limited, Execute, Inv, TokenFails, FailsInsideToken, Run, Enter;
    RunningIsNoOverflow(policy, c, a);
    LimitedIsExecute(policy, c, a);
    CutFails(policy, c, a, []);
    SurplusFits(policy, c, a);
  }

  /** Split invariance for any cutting of a stream into non-empty buffers. */
  lemma CutAnywhere(policy: Policy, c: Session, buffers: seq<seq<byte>>)
    requires CanGoOn(c) && buffers != [] && forall i | 0 <= i < |buffers| :: buffers[i] != []
    requires !FeedLimited(policy, c, buffers).after.errno.HeaderOverflow?
    requires !Limited(policy, c, Flatten(buffers)).after.errno.HeaderOverflow?
    ensures var cut, whole := FeedLimited(policy, c, buffers), Limited(policy, c, Flatten(buffers));
            && Alike(whole, cut)
            && (whole.after.trace == cut.after.trace <==> !CutShows(policy, c, buffers))
  {
    hide Limited, Execute, Inv, Feed, FeedLimited, CutShows, Shows, Reported, Surplus;
    FeedIsMachine(policy, c, c.nread, buffers);
    HttpSplit.CutInvariance(policy, c, buffers);
    LimitedIsExecute(policy, c, Flatten(buffers));
    assert c.(nread := c.nread) == c;
  }

  /** Streams of which all bytes fit under the limit are never found too long, however they are cut. */
  lemma {:induction false} CutsFitUnderLimit(policy: Policy, c: Session, buffers: seq<seq<byte>>)
    requires CanGoOn(c) && buffers != [] && forall i | 0 <= i < |buffers| :: buffers[i] != []
    requires c.nread + |Flatten(buffers)| + |buffers| <= MAX_HEADER_SIZE
    ensures !FeedLimited(policy, c, buffers).after.errno.HeaderOverflow?
    ensures !Limited(policy, c, Flatten(buffers)).after.errno.HeaderOverflow?
    decreases |buffers|
  {
    hide Limited, Inv;
    FitsUnderLimit(policy, c, buffers[0]);
    FitsUnderLimit(policy, c, Flatten(buffers));
    var first := Limited(policy, c, buffers[0]);
    if |buffers| > 1 && first.outcome.Running? {
      NreadFitsAfter(policy, c, buffers[0]);
      CutsFitUnderLimit(policy, first.after, buffers[1..]);
    }
  }

  // ---------- on objects ----------

  /** Two parsers in the same state: one is given a and then b, the other both at once. */
  method CutOnObjects(policy: Policy, p: HttpParser, q: HttpParser, a: seq<byte>, b: seq<byte>)
    returns (cut: nat, whole: nat)
    requires p != q && p.Valid() && q.Valid() && p.Session() == q.Session() && p.errno == OK && a != [] && b != []
    modifies p, q
    ensures Limited(policy, old(p.Session()), a).outcome.Running? && p.errno != HeaderOverflow && q.errno != HeaderOverflow ==>
              && cut == whole && p.Record() == q.Record() && p.errno == q.errno
              && (Canon(p.calls) == Canon(q.calls) <==>
                  !TokenFails(Limited(policy, old(p.Session()), a).after.p, b))
  {
    hide Limited, Inv, TokenFails, Canon, NreadFits;
    ghost var c := p.Session();
    assert CanGoOn(c);
    var first := p.Execute(policy, a);
    var second := p.Execute(policy, b);
    cut := first + second;
    whole := q.Execute(policy, a + b);
    if Limited(policy, c, a).outcome.Running? && p.errno != HeaderOverflow && q.errno != HeaderOverflow {
      CutOnce(policy, c, a, b);
    }
  }

  /** A new parser that is given buffers, and continued when it has paused. */
  method Serve(policy: Policy, typ: ParserType, moves: seq<Move>) returns (p: HttpParser)
    ensures fresh(p) && p.Session() == Play(policy, Session(InitialParser(typ), OK, 0, []), moves)
    ensures SessionFits(p.Session())
  {
    hide SessionFits, Limited, Inv, Canon, NreadFits;
    p := new HttpParser(typ);
    ghost var s := p.Session();
    NewConnectionFits(typ);
    ConnectionsAreFramed(policy, s, moves);
    for i := 0 to |moves|
      invariant fresh(p) && p.Valid() && Play(policy, p.Session(), moves[i..]) == Play(policy, s, moves)
    {
      assert moves[i..][0] == moves[i] && moves[i..][1..] == moves[i + 1..];
      match moves[i] {
        case Pass(buf) => var _ := p.Execute(policy, buf);
        case Continue =>
          if p.errno == Paused {
            p.Pause(false);
          }
      }
    }
    assert moves[|moves|..] == [];
  }
}
