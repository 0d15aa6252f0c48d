/** http_parser_execute itself: the walk over a buffer with its bulk loops, proved to
    refine the machine that reads one byte at a time. */
module HttpExecute {
  import opened Common
  import opened HttpTypes
  import opened HttpCases
  import opened HttpMachine
  import opened HttpSplit
  import opened HttpInvariant
  import opened HttpCursor
  import opened HttpLimit

  /** The cursor is about to read byte number pos, and the rest of the call leads to goal. */
  ghost predicate Ready(policy: Policy, c: Cursor, buf: seq<byte>, goal: Call) {
    && Fits(c, buf) && c.errno == OK && Inv(c.p) && NreadFits(c.p, c.nread)
    && LimitAt(policy, View(c, buf), buf, c.pos, None) == goal
  }

  /** The cursor is in the middle of byte number pos. */
  ghost predicate Busy(policy: Policy, c: Cursor, buf: seq<byte>, goal: Call) {
    && Fits(c, buf) && c.pos < |buf| && c.errno == OK && Inv(c.p)
    && (c.p.state.ChunkSizeStart? ==> c.nread == 1)
    && LimitResume(policy, View(c, buf), buf, c.pos) == goal
  }

  /** The call has ended with goal; unless it failed, the parser can go on. */
  ghost predicate Ended(c: Cursor, count: nat, goal: Call) {
    && goal.count == count && goal.after == HttpMachine.Session(c.p, c.errno, c.nread, Canon(c.calls))
    && (c.errno == OK || c.errno == Paused ==> Inv(c.p) && NreadFits(c.p, c.nread))
  }

  // ---------- the cases without bulk loops ----------

  /** The effect of one case on the rest of the run. */
  lemma BusyCase(policy: Policy, c: Cursor, buf: seq<byte>, goal: Call)
    requires Busy(policy, c, buf, goal)
    ensures AssertionsHold(c.p, c.nread)
    ensures var k := CaseOf(c.p, buf[c.pos]);
            var d := PrepareAt(c, k, buf);
            && MarkRules(c.p.state, k) && CaseIsSafe(c.p, k)
            && MarksInBuffer(d.marks, d.pos) && AtMostOneMark(d.marks)
            && View(d, buf) == Prepare(View(c, buf), k, buf[c.pos])
            && (k.next.Reexec? ==> !k.p.state.ChunkSizeStart?)
  {
    AssertionsFollow(c.p, c.nread);
    var k := CaseOf(c.p, buf[c.pos]);
    CaseMarks(c.p, buf[c.pos]);
    CaseKeepsInv(c.p, buf[c.pos]);
    NoJumpToChunkSize(c.p, buf[c.pos]);
    PrepareView(c, k, buf);
    hide *;
  }

  /** The cursor after a case: marks, data callback, notification. */
  function AfterCase(policy: Policy, c: Cursor, k: Case, buf: seq<byte>): Cursor
    requires c.pos < |buf| && MarksInBuffer(c.marks, c.pos)
  {
    var d := PrepareAt(c, k, buf);
    if k.fire.Fire? then FireNoteAt(policy, d, k.fire.note) else d
  }

  lemma AfterCaseView(policy: Policy, c: Cursor, buf: seq<byte>, k: Case)
    requires Fits(c, buf) && c.pos < |buf| && MarkRules(c.p.state, k)
    ensures var e := AfterCase(policy, c, k, buf);
            && e.pos == c.pos && MarksInBuffer(e.marks, e.pos) && AtMostOneMark(e.marks)
            && Perform(policy, View(c, buf), k, buf[c.pos]) ==
                 if k.fire.Fire? && e.errno != OK then Stop(View(e, buf), Left(k.fire.advance))
                 else match k.next
                   case Advance => (View(e, buf), Done(Running))
                   case Reexec => (View(e, buf), Again)
                   case Exit => Stop(View(e, buf), Left(true))
                   case Fail(error) => Stop(View(e, buf).(errno := error), Failed)
                   case Abort => Stop(View(e, buf), Failed)
  {
    PrepareView(c, k, buf);
    var d := PrepareAt(c, k, buf);
    if k.fire.Fire? {
      FireNoteView(policy, d, k.fire.note, buf);
    }
    hide Prepare, FireNote, MarkRules, Fits, OpenOf, Canon, CloseMarkAt;
  }

  /** What a case leads to, by the way it ends. */
  lemma BusyAdvance(policy: Policy, c: Cursor, e: Cursor, buf: seq<byte>, goal: Call)
    requires Busy(policy, c, buf, goal)
    requires e.pos == c.pos && MarksInBuffer(e.marks, e.pos) && AtMostOneMark(e.marks)
    requires Perform(policy, View(c, buf), CaseOf(c.p, buf[c.pos]), buf[c.pos]) == (View(e, buf), Done(Running))
    ensures Ready(policy, e.(pos := c.pos + 1), buf, goal)
  {
    hide CaseOf, Perform, Inv, MarksFit, OpenOf, Canon, LimitAt, Collect;
    var ch, m := buf[c.pos], View(c, buf);
    PerformSafely(policy, m, ch);
    RunningIsOkAfter(policy, m, ch);
    NextByteView(e, buf);
    CollectKeepsMarks(View(e, buf), ch);
  }

  lemma BusyAgain(policy: Policy, c: Cursor, e: Cursor, buf: seq<byte>, goal: Call)
    requires Busy(policy, c, buf, goal)
    requires e.pos == c.pos && MarksInBuffer(e.marks, e.pos) && AtMostOneMark(e.marks)
    requires Perform(policy, View(c, buf), CaseOf(c.p, buf[c.pos]), buf[c.pos]) == (View(e, buf), Again)
    ensures Busy(policy, e, buf, goal)
  {
    var ch, m := buf[c.pos], View(c, buf);
    PerformSafely(policy, m, ch);
    RunningIsOkAfter(policy, m, ch);
    NoJumpToChunkSize(c.p, ch);
    hide CaseOf, Perform, Inv, MarksFit, OpenOf, Canon, LimitAt, Collect;
  }

  lemma BusyEnd(policy: Policy, c: Cursor, e: Cursor, buf: seq<byte>, goal: Call, outcome: Outcome)
    requires Busy(policy, c, buf, goal) && !outcome.Running?
    requires e.pos == c.pos && MarksInBuffer(e.marks, e.pos)
    requires Perform(policy, View(c, buf), CaseOf(c.p, buf[c.pos]), buf[c.pos]) == Stop(View(e, buf), outcome)
    requires outcome.Failed? ==> IsParseError(e.errno)
    ensures Ended(e, if outcome == Left(true) then c.pos + 1 else c.pos, goal)
  {
    PerformSafely(policy, View(c, buf), buf[c.pos]);
    hide CaseOf, Perform, Inv, MarksFit, OpenOf, Canon, LimitAt, Collect;
  }

  lemma PerformSafely(policy: Policy, m: Machine, ch: byte)
    requires Inv(m.p) && MarksFit(m.p.state, m.open)
    ensures var (n, signal) := Perform(policy, m, CaseOf(m.p, ch), ch);
            && (signal != Done(Failed) ==> Inv(n.p) && NreadFits(n.p, n.nread))
            && (signal.Again? || signal == Done(Running) ==> MarksFit(n.p.state, n.open))
  {
    var k := CaseOf(m.p, ch);
    CaseMarks(m.p, ch);
    CaseKeepsInv(m.p, ch);
    PerformKeepsMarks(policy, m, k, ch);
    assert k.next.Fail? ==> k.fire.Silent?;
    PerformKeepsInv(policy, m, k, ch);
    hide CaseOf, Perform, MarkRules, CaseIsSafe, Inv, MarksFit;
  }

  lemma RunningIsOkAfter(policy: Policy, m: Machine, ch: byte)
    requires m.errno == OK
    ensures var (n, signal) := Perform(policy, m, CaseOf(m.p, ch), ch);
            signal.Again? || signal == Done(Running) ==> n.errno == OK
  {
    hide CaseOf, Emit, Notified, NoteErrno;
  }

  lemma CollectKeepsMarks(m: Machine, ch: byte)
    requires MarksFit(m.p.state, m.open)
    ensures MarksFit(m.p.state, Collect(m, ch).open) && Collect(m, ch).(open := m.open) == m
  {
  }

  lemma BusyEffect(policy: Policy, c: Cursor, buf: seq<byte>, goal: Call)
    requires Busy(policy, c, buf, goal)
    ensures var k := CaseOf(c.p, buf[c.pos]);
            var e := AfterCase(policy, c, k, buf);
            && e.pos == c.pos
            && if k.fire.Fire? && e.errno != OK then
                 Ended(e, if k.fire.advance then c.pos + 1 else c.pos, goal)
               else match k.next
                 case Advance => Ready(policy, e.(pos := c.pos + 1), buf, goal)
                 case Reexec => Busy(policy, e, buf, goal)
                 case Exit => Ended(e, c.pos + 1, goal)
                 case Fail(error) => Ended(e.(errno := error), c.pos, goal)
                 case Abort => false
  {
    var k := CaseOf(c.p, buf[c.pos]);
    var e := AfterCase(policy, c, k, buf);
    BusyCase(policy, c, buf, goal);
    AfterCaseView(policy, c, buf, k);
    hide CaseOf, Perform, MarkRules, CaseIsSafe, Inv, AssertionsHold, MarksFit, OpenOf, Canon, AfterCase,
         Collect, LimitResume, LimitAt, Stop, IsParseError;
    AbortIsUnsafe(c.p, k);
    if k.fire.Fire? && e.errno != OK {
      BusyEnd(policy, c, e, buf, goal, Left(k.fire.advance));
    } else {
      match k.next
      case Advance => BusyAdvance(policy, c, e, buf, goal);
      case Reexec => BusyAgain(policy, c, e, buf, goal);
      case Exit => BusyEnd(policy, c, e, buf, goal, Left(true));
      case Fail(error) => BusyEnd(policy, c, e.(errno := error), buf, goal, Failed);
      case Abort =>
    }
  }

  lemma AbortIsUnsafe(p: Parser, k: Case)
    ensures k.next.Abort? ==> !CaseIsSafe(p, k)
  {
  }

  /** The switch for the cases without a bulk loop: the label reexecute and what follows it. */
  method Dispatch(policy: Policy, c0: Cursor, buf: seq<byte>, ghost goal: Call)
    returns (c: Cursor, done: Option<nat>)
    requires Busy(policy, c0, buf, goal)
    ensures done.None? ==> c.pos == c0.pos + 1 && Ready(policy, c, buf, goal)
    ensures done.Some? ==> Ended(c, done.value, goal)
  {
    c := c0;
    while true
      invariant c.pos == c0.pos && Busy(policy, c, buf, goal)
      decreases Rank(c.p.state)
    {
      BusyCase(policy, c, buf, goal);
      assert AssertionsHold(c.p, c.nread);
      BusyEffect(policy, c, buf, goal);
      var k := CaseOf(c.p, buf[c.pos]);
      var c' := AfterCase(policy, c, k, buf);
      if k.fire.Fire? && c'.errno != OK {
        return c', Some(if k.fire.advance then c.pos + 1 else c.pos);
      }
      match k.next {
        case Advance => return c'.(pos := c.pos + 1), None;
        case Reexec => c := c';
        case Exit => return c', Some(c.pos + 1);
        case Fail(error) => return c'.(errno := error), Some(c.pos);
        case Abort => assert false;
      }
    }
  }

  // ---------- the bulk loops ----------

  /** COUNT_HEADER_SIZE found too many header bytes. */
  function Overflowed(c: Cursor): Cursor { c.(errno := HeaderOverflow) }

  function CountAt(c: Cursor): Cursor {
    if ParsingHeader(c.p.state) then c.(nread := c.nread + 1) else c
  }

  lemma CountView(c: Cursor, buf: seq<byte>)
    requires c.pos <= |buf| && MarksInBuffer(c.marks, c.pos)
    ensures View(CountAt(c), buf) == Count(View(c, buf))
  {
    hide Canon, OpenOf;
  }

  lemma ReadyIsBusy(policy: Policy, c: Cursor, buf: seq<byte>, goal: Call)
    requires Ready(policy, c, buf, goal) && c.pos < |buf| && !Bulk(c.p.state)
    ensures ParsingHeader(c.p.state) && TooMany(c.nread + 1) ==> Ended(Overflowed(CountAt(c)), c.pos, goal)
    ensures !(ParsingHeader(c.p.state) && TooMany(c.nread + 1)) ==> Busy(policy, CountAt(c), buf, goal)
  {
    CountView(c, buf);
    hide Inv, LimitResume, OpenOf, MarksFit, Canon, Count;
  }

  lemma ReadyFits(policy: Policy, c: Cursor, buf: seq<byte>, goal: Call)
    requires Ready(policy, c, buf, goal)
    ensures MarksInBuffer(c.marks, c.pos) && c.errno == OK && c.pos <= |buf|
  {
    hide LimitAt, Inv, View;
  }

  /** In a body, a case that only changes the parser, and may set a mark, takes the cursor to the
      next byte. */
  lemma ReadyStep(policy: Policy, c: Cursor, buf: seq<byte>, goal: Call)
    requires Ready(policy, c, buf, goal) && c.pos < |buf| && !ParsingHeader(c.p.state)
    ensures var k := CaseOf(c.p, buf[c.pos]);
            k == Case(k.p, Advance, mark := k.mark) ==>
              Ready(policy, SetMarkAt(c.(p := k.p), k.mark).(pos := c.pos + 1), buf, goal)
  {
    hide CaseOf, Ready, Busy, SetMarkAt, MarksInBuffer;
    ReadyFits(policy, c, buf, goal);
    ReadyIsBusy(policy, c, buf, goal);
    BusyEffect(policy, CountAt(c), buf, goal);
  }

  /** The cases that the source runs as bulk loops. */
  lemma BulkCases(p: Parser, ch: byte)
    ensures p.state.HeaderField? ==> CaseOf(p, ch) == FieldCase(p, ch)
    ensures p.state.HeaderValue? ==> CaseOf(p, ch) == ValueCase(p, ch)
    ensures p.state.BodyIdentity? ==> CaseOf(p, ch) == BodyIdentityCase(p)
    ensures p.state.BodyIdentityEof? ==> CaseOf(p, ch) == Case(p, Advance, mark := Some(Body))
    ensures p.state.ChunkData? ==> CaseOf(p, ch) == ChunkDataCase(p)
  {
    hide FieldCase, ValueCase, BodyIdentityCase, ChunkDataCase;
  }

  /** The cursor is inside the loop over a header name or value; nread is counted up to date. */
  ghost predicate Looping(policy: Policy, c: Cursor, buf: seq<byte>, goal: Call, loop: Loop) {
    && Fits(c, buf) && c.errno == OK && Inv(c.p) && Bulk(c.p.state)
    && LimitAt(policy, View(c, buf), buf, c.pos, Some(loop)) == goal
  }

  lemma LoopBegins(policy: Policy, c: Cursor, buf: seq<byte>, goal: Call)
    requires Ready(policy, c, buf, goal) && c.pos < |buf| && Bulk(c.p.state)
    ensures TooMany(c.nread + 1) ==> Ended(Overflowed(CountAt(c)), c.pos, goal)
    ensures !TooMany(c.nread + 1) ==> Looping(policy, c, buf, goal, Loop(c.p.headerState, c.nread + 1))
  {
    hide Inv, LimitLoop, OpenOf, MarksFit, Canon;
  }

  lemma LoopEnds(policy: Policy, c: Cursor, buf: seq<byte>, goal: Call, loop: Loop)
    requires Looping(policy, c, buf, goal, loop) && c.pos == |buf|
    ensures var d := c.(nread := c.nread + 1);
            if TooMany(d.nread) then Ended(Overflowed(d), |buf|, goal) else Ready(policy, d, buf, goal)
  {
    hide Inv, OpenOf, MarksFit, Canon;
  }

  /** One byte inside a loop. */
  lemma LoopStep(policy: Policy, c: Cursor, buf: seq<byte>, goal: Call, loop: Loop)
    requires Looping(policy, c, buf, goal, loop) && c.pos < |buf|
    requires if c.p.state.HeaderField? then Token(buf[c.pos]) != 0
             else !LineEnd(buf[c.pos]) && !SkipsAll(c.p.headerState, buf, c.pos)
    ensures var k := CaseOf(c.p, buf[c.pos]);
            k == Case(k.p, Advance) && Bulk(k.p.state) ==>
              Looping(policy, c.(p := k.p, nread := c.nread + 1, pos := c.pos + 1), buf, goal, loop)
  {
    var ch, m := buf[c.pos], View(c, buf);
    var k := CaseOf(c.p, ch);
    LoopUnfold(policy, c, buf, goal, loop);
    if k == Case(k.p, Advance) && Bulk(k.p.state) {
      PlainStep(policy, m, ch);
      LoopGoesOn(policy, m, buf, c.pos, loop);
      CaseKeepsInv(c.p, ch);
      StepKeepsMarks(policy, m, ch);
      var d := c.(p := k.p, nread := c.nread + 1);
      NextByteView(d, buf);
      assert View(d, buf) == Count(m).(p := k.p);
      assert View(d.(pos := c.pos + 1), buf) == Step(policy, m, ch).0;
    }
    hide CaseOf, Inv, Step, MarksFit, OpenOf, Canon, Token, Collect, LimitAt, LimitLoop, SkipsAll;
  }

  lemma LoopGoesOn(policy: Policy, m: Machine, buf: seq<byte>, i: nat, loop: Loop)
    requires i < |buf| && Step(policy, m, buf[i]).1.Running?
    requires if m.p.state.HeaderField? then Token(buf[i]) != 0
             else !LineEnd(buf[i]) && !SkipsAll(m.p.headerState, buf, i)
    ensures LimitLoop(policy, m, buf, i, loop) == LimitAt(policy, Step(policy, m, buf[i]).0, buf, i + 1, Some(loop))
  {
    hide LimitAt, LimitResume, Step, SkipsAll, Token;
  }

  lemma FieldStep(policy: Policy, c: Cursor, buf: seq<byte>, goal: Call, loop: Loop)
    requires Looping(policy, c, buf, goal, loop) && c.pos < |buf|
    requires c.p.state.HeaderField? && Token(buf[c.pos]) != 0
    ensures var (h, i) := FieldNext(c.p.headerState, c.p.index, Token(buf[c.pos]), buf[c.pos]);
            Looping(policy, c.(p := c.p.(headerState := h, index := i), nread := c.nread + 1, pos := c.pos + 1),
                    buf, goal, loop)
  {
    hide Looping, FieldNext, Token, CaseOf;
    LoopStep(policy, c, buf, goal, loop);
    BulkCases(c.p, buf[c.pos]);
  }

  /** The byte behind a header name is read after the count. */
  lemma FieldEnds(policy: Policy, c: Cursor, buf: seq<byte>, goal: Call, loop: Loop)
    requires Looping(policy, c, buf, goal, loop) && c.pos < |buf|
    requires c.p.state.HeaderField? && Token(buf[c.pos]) == 0
    ensures var d := c.(nread := c.nread + 1);
            if TooMany(d.nread) then Ended(Overflowed(d), c.pos, goal) else Busy(policy, d, buf, goal)
  {
    hide Inv, LimitResume, LimitAt, OpenOf, MarksFit, Canon, Count, Step, Token;
    LoopUnfold(policy, c, buf, goal, loop);
    CountView(c, buf);
  }

  lemma FieldEnd(policy: Policy, d: Cursor, buf: seq<byte>, goal: Call)
    requires d.pos < |buf| && Busy(policy, d, buf, goal) && MarksInBuffer(d.marks, d.pos)
    requires d.p.state.HeaderField? && Token(buf[d.pos]) == 0
    ensures if buf[d.pos] == ':' as int then
              Ready(policy, CloseMarkAt(d.(p := d.p.(state := HeaderValueDiscardWs)), CloseBefore(Field), buf)
                              .(pos := d.pos + 1), buf, goal)
            else Ended(d.(errno := InvalidHeaderToken), d.pos, goal)
  {
    hide Ready, Busy, Ended, CaseOf, FieldNext, MarksInBuffer;
    BusyEffect(policy, d, buf, goal);
    BulkCases(d.p, buf[d.pos]);
  }

  /** The loop over a header name. */
  method HeaderFieldLoop(policy: Policy, c0: Cursor, buf: seq<byte>, ghost goal: Call)
    returns (c: Cursor, done: Option<nat>)
    requires c0.p.state.HeaderField? && c0.pos < |buf| && MarksInBuffer(c0.marks, c0.pos) && !TooMany(c0.nread + 1)
    requires Ready(policy, c0, buf, goal)
    ensures done.None? ==> c.pos > c0.pos && Ready(policy, c, buf, goal)
    ensures done.Some? ==> Ended(c, done.value, goal)
  {
    hide Ready, Looping, Busy, Ended, Token, CloseMarkAt, FieldNext;
    LoopBegins(policy, c0, buf, goal);
    ghost var loop := Loop(c0.p.headerState, c0.nread + 1);
    var entered, p, j := c0.nread + 1, c0.p, c0.pos;
    while j < |buf| && Token(buf[j]) != 0
      invariant c0.pos <= j <= |buf| && p.state.HeaderField?
      invariant Looping(policy, c0.(p := p, nread := c0.nread + (j - c0.pos), pos := j), buf, goal, loop)
    {
      FieldStep(policy, c0.(p := p, nread := c0.nread + (j - c0.pos), pos := j), buf, goal, loop);
      var (h, i) := FieldNext(p.headerState, p.index, Token(buf[j]), buf[j]);
      p := p.(headerState := h, index := i);
      j := j + 1;
    }
    c := c0.(p := p, nread := entered + (j - c0.pos), pos := j);
    ghost var now := c.(nread := c.nread - 1);
    if j == |buf| {
      LoopEnds(policy, now, buf, goal, loop);
    } else {
      FieldEnds(policy, now, buf, goal, loop);
    }
    if TooMany(c.nread) {
      return Overflowed(c), Some(j);
    }
    if j == |buf| {
      return c, None;
    }
    FieldEnd(policy, c, buf, goal);
    if buf[j] == ':' as int {
      c := CloseMarkAt(c.(p := p.(state := HeaderValueDiscardWs)), CloseBefore(Field), buf);
      return c.(pos := j + 1), None;
    }
    return c.(errno := InvalidHeaderToken), Some(j);
  }

  // ---------- header values ----------

  /** memchr over the bytes from..from+limit; -1 if there is none. */
  method Memchr(buf: seq<byte>, from: nat, limit: nat, ch: byte) returns (i: int)
    requires from + limit <= |buf|
    ensures i == -1 ==> forall j | from <= j < from + limit :: buf[j] != ch
    ensures i != -1 ==> from <= i < from + limit && buf[i] == ch && forall j | from <= j < i :: buf[j] != ch
  {
    for k := from to from + limit
      invariant forall j | from <= j < k :: buf[j] != ch
    {
      if buf[k] == ch {
        return k;
      }
    }
    return -1;
  }

  /** The parser after one more character of a header value that does not fail. */
  lemma ValueStep(policy: Policy, c: Cursor, buf: seq<byte>, goal: Call, loop: Loop)
    requires Looping(policy, c, buf, goal, loop) && c.pos < |buf| && c.p.state.HeaderValue?
    requires !LineEnd(buf[c.pos]) && !SkipsAll(c.p.headerState, buf, c.pos)
    ensures var k := ValueCase(c.p, buf[c.pos]);
            k == Stay(k.p) ==>
              Looping(policy, c.(p := k.p, nread := c.nread + 1, pos := c.pos + 1), buf, goal, loop)
  {
    hide Looping, CaseOf, SkipsAll, AddLengthDigit, LineEnd;
    LoopStep(policy, c, buf, goal, loop);
    BulkCases(c.p, buf[c.pos]);
  }

  /** A digit that Content-Length cannot have ends the call before the bytes of the value are counted. */
  lemma ValueFails(policy: Policy, c: Cursor, buf: seq<byte>, goal: Call, loop: Loop)
    requires Looping(policy, c, buf, goal, loop) && c.pos < |buf|
    requires c.p.state.HeaderValue? && c.p.headerState.ContentLength?
    requires !LineEnd(buf[c.pos]) && buf[c.pos] != SP && AddLengthDigit(c.p.contentLength, buf[c.pos]).None?
    ensures Ended(c.(errno := InvalidContentLength, nread := loop.nread), c.pos, goal)
  {
    BulkCases(c.p, buf[c.pos]);
    hide CaseOf, Inv, OpenOf, MarksFit, Canon, AddLengthDigit, LimitAt, Emit;
    LoopUnfold(policy, c, buf, goal, loop);
    FailedStep(policy, View(c, buf), buf[c.pos], InvalidContentLength);
  }

  lemma LoopUnfold(policy: Policy, c: Cursor, buf: seq<byte>, goal: Call, loop: Loop)
    requires Looping(policy, c, buf, goal, loop) && c.pos < |buf|
    ensures LimitLoop(policy, View(c, buf), buf, c.pos, loop) == goal
  {
    hide LimitLoop, Inv, OpenOf, MarksFit, Canon;
  }

  /** memchr went beyond what it may look at. */
  lemma ValueSkipsAll(policy: Policy, c: Cursor, buf: seq<byte>, goal: Call, loop: Loop)
    requires Looping(policy, c, buf, goal, loop) && c.pos < |buf| && c.p.state.HeaderValue?
    requires SkipsAll(c.p.headerState, buf, c.pos)
    ensures Ended(Overflowed(c.(nread := c.nread + 1 + (|buf| - c.pos), pos := |buf|)), |buf|, goal)
  {
    LoopUnfold(policy, c, buf, goal, loop);
    assert !LineEnd(buf[c.pos]);
    hide Inv, OpenOf, MarksFit, Canon, LimitAt, Step, SkipsAll;
  }

  /** Skipping to the next line end is reading the characters in between one by one. */
  lemma {:induction false} ValueSkip(policy: Policy, c: Cursor, buf: seq<byte>, goal: Call, loop: Loop, t: nat)
    requires Looping(policy, c, buf, goal, loop) && c.pos + t <= |buf|
    requires c.p.state.HeaderValue? && c.p.headerState.General?
    requires forall i | c.pos <= i < c.pos + t :: !LineEnd(buf[i]) && !SkipsAll(General, buf, i)
    ensures Looping(policy, c.(nread := c.nread + t, pos := c.pos + t), buf, goal, loop)
    decreases t
  {
    hide Looping, SkipsAll;
    if t > 0 {
      ValueStep(policy, c, buf, goal, loop);
      ValueSkip(policy, c.(nread := c.nread + 1, pos := c.pos + 1), buf, goal, loop, t - 1);
    }
  }

  /** The line end behind a value: after CR the value is reported first and counted then, after LF
      the other way round. */
  lemma ValueEnds(policy: Policy, c: Cursor, buf: seq<byte>, goal: Call, loop: Loop)
    requires Looping(policy, c, buf, goal, loop) && c.pos < |buf| && c.p.state.HeaderValue?
    requires LineEnd(buf[c.pos])
    ensures MarksInBuffer(c.marks, c.pos)
    ensures var d := c.(nread := c.nread + 1);
            var e := CloseMarkAt(d.(p := c.p.(state := HeaderAlmostDone)), CloseBefore(Value), buf);
            if !TooMany(d.nread) then Busy(policy, d, buf, goal)
            else if buf[c.pos] == CR then Ended(Overflowed(e), c.pos, goal)
            else
              Ended(Overflowed(d.(p := c.p.(state := HeaderAlmostDone, headerState := loop.headerState))), c.pos, goal)
  {
    hide Inv, LimitResume, OpenOf, MarksFit, Canon, Switch, CloseMarkAt, LimitAt;
    LoopUnfold(policy, c, buf, goal, loop);
    CountView(c, buf);
    var d := CountAt(c);
    if buf[c.pos] == CR {
      ValueReported(policy, d, buf);
    }
  }

  lemma ValueReported(policy: Policy, d: Cursor, buf: seq<byte>)
    requires Fits(d, buf) && d.pos < |buf| && d.p.state.HeaderValue? && buf[d.pos] == CR
    ensures var e := CloseMarkAt(d.(p := d.p.(state := HeaderAlmostDone)), CloseBefore(Value), buf);
            && MarksInBuffer(e.marks, e.pos)
            && Switch(policy, View(d, buf), CR) == (View(e, buf), Running)
  {
    BulkCases(d.p, CR);
    CaseMarks(d.p, CR);
    AfterCaseView(policy, d, buf, CaseOf(d.p, CR));
    hide CaseOf, MarkRules, Fits, OpenOf, Canon, CloseMarkAt, Perform, MarksInBuffer;
  }

  lemma ValueEnd(policy: Policy, d: Cursor, buf: seq<byte>, goal: Call)
    requires d.pos < |buf| && Busy(policy, d, buf, goal) && d.p.state.HeaderValue? && MarksInBuffer(d.marks, d.pos)
    ensures var e := CloseMarkAt(d.(p := d.p.(state := HeaderAlmostDone)), CloseBefore(Value), buf);
            && (buf[d.pos] == CR ==> Ready(policy, e.(pos := d.pos + 1), buf, goal))
            && (buf[d.pos] == LF ==> Busy(policy, e, buf, goal))
  {
    hide Ready, Busy, Ended, CaseOf, ValueNext, AddLengthDigit, MarksInBuffer;
    BusyEffect(policy, d, buf, goal);
    BulkCases(d.p, buf[d.pos]);
  }

  /** The line end behind a header value. */
  method EndValue(policy: Policy, c0: Cursor, buf: seq<byte>, ghost goal: Call, h: HeaderState)
    returns (c: Cursor, done: Option<nat>)
    requires c0.p.state.HeaderValue? && c0.pos < |buf| && LineEnd(buf[c0.pos]) && MarksInBuffer(c0.marks, c0.pos)
    requires !TooMany(c0.nread) ==> Busy(policy, c0, buf, goal)
    requires var e := CloseMarkAt(c0.(p := c0.p.(state := HeaderAlmostDone)), CloseBefore(Value), buf);
             TooMany(c0.nread) ==>
               if buf[c0.pos] == CR then Ended(Overflowed(e), c0.pos, goal)
               else Ended(Overflowed(c0.(p := c0.p.(state := HeaderAlmostDone, headerState := h))), c0.pos, goal)
    ensures done.None? ==> c.pos == c0.pos + 1 && Ready(policy, c, buf, goal)
    ensures done.Some? ==> Ended(c, done.value, goal)
  {
    hide Ready, Busy, Ended, CloseMarkAt;
    if !TooMany(c0.nread) {
      ValueEnd(policy, c0, buf, goal);
    }
    c := c0.(p := c0.p.(state := HeaderAlmostDone));
    if buf[c.pos] == CR {
      c := CloseMarkAt(c, CloseBefore(Value), buf);
      if TooMany(c.nread) {
        return Overflowed(c), Some(c.pos);
      }
      return c.(pos := c.pos + 1), None;
    }
    if TooMany(c.nread) {
      return Overflowed(c.(p := c.p.(headerState := h))), Some(c.pos);
    }
    c := CloseMarkAt(c, CloseBefore(Value), buf);
    c, done := Dispatch(policy, c, buf, goal);
  }

  lemma SkipsTooMany(buf: seq<byte>, j: nat)
    requires SkipsAll(General, buf, j)
    ensures |buf| - j >= MAX_HEADER_SIZE
  {
  }

  lemma NotGeneral(h: HeaderState, buf: seq<byte>, i: nat)
    ensures !h.General? ==> !SkipsAll(h, buf, i)
  {
  }

  /** Where the case h_general goes: to the next line end, or to the end of the buffer. */
  method SkipGeneral(buf: seq<byte>, j: nat) returns (next: nat)
    requires j < |buf| && !LineEnd(buf[j])
    ensures j < next <= |buf|
    ensures SkipsAll(General, buf, j) ==> next == |buf|
    ensures !SkipsAll(General, buf, j) ==>
              forall i | j <= i < next :: !LineEnd(buf[i]) && !SkipsAll(General, buf, i)
  {
    var limit := if |buf| - j < MAX_HEADER_SIZE then |buf| - j else MAX_HEADER_SIZE;
    var cr := Memchr(buf, j, limit, CR);
    var lf := Memchr(buf, j, limit, LF);
    next := if cr != -1 then (if lf != -1 && cr >= lf then lf else cr)
            else if lf != -1 then lf else |buf|;
    if cr != -1 || lf != -1 {
      forall i | j <= i < next ensures !SkipsAll(General, buf, i) {
        assert LineEnd(buf[next]);
      }
    }
  }

  /** The loop over a header value. */
  method HeaderValueLoop(policy: Policy, c0: Cursor, buf: seq<byte>, ghost goal: Call)
    returns (c: Cursor, done: Option<nat>)
    requires c0.p.state.HeaderValue? && c0.pos < |buf| && MarksInBuffer(c0.marks, c0.pos) && !TooMany(c0.nread + 1)
    requires Ready(policy, c0, buf, goal)
    ensures done.None? ==> c.pos > c0.pos && Ready(policy, c, buf, goal)
    ensures done.Some? ==> Ended(c, done.value, goal)
  {
    hide Ready, Looping, Busy, Ended, CloseMarkAt, ValueNext, SkipsAll;
    LoopBegins(policy, c0, buf, goal);
    ghost var loop := Loop(c0.p.headerState, c0.nread + 1);
    var entered, p, j := c0.nread + 1, c0.p, c0.pos;
    ghost var skipped := false;
    while j < |buf|
      invariant c0.pos <= j <= |buf| && p.state.HeaderValue?
      invariant j < |buf| || j > c0.pos
      invariant skipped ==>
                  && j == |buf| && TooMany(entered + (j - c0.pos))
                  && Ended(Overflowed(c0.(p := p, nread := entered + (j - c0.pos), pos := j)), |buf|, goal)
      invariant !skipped ==>
                  Looping(policy, c0.(p := p, nread := c0.nread + (j - c0.pos), pos := j), buf, goal, loop)
    {
      ghost var now := c0.(p := p, nread := c0.nread + (j - c0.pos), pos := j);
      if LineEnd(buf[j]) {
        ValueEnds(policy, now, buf, goal, loop);
        c := c0.(p := p, nread := entered + (j - c0.pos), pos := j);
        c, done := EndValue(policy, c, buf, goal, c0.p.headerState);
        return;
      }
      if p.headerState.General? {
        var next := SkipGeneral(buf, j);
        if SkipsAll(General, buf, j) {
          ValueSkipsAll(policy, now, buf, goal, loop);
          SkipsTooMany(buf, j);
          skipped := true;
        } else {
          ValueSkip(policy, now, buf, goal, loop, next - j);
        }
        j := next;
      } else if p.headerState.ContentLength? {
        NotGeneral(p.headerState, buf, j);
        if buf[j] == SP {
          ValueStep(policy, now, buf, goal, loop);
        } else {
          match AddLengthDigit(p.contentLength, buf[j]) {
            case None =>
              ValueFails(policy, now, buf, goal, loop);
              return c0.(p := p, nread := entered, errno := InvalidContentLength, pos := j), Some(j);
            case Some(n) =>
              ValueStep(policy, now, buf, goal, loop);
              p := p.(contentLength := n);
          }
        }
        j := j + 1;
      } else {
        NotGeneral(p.headerState, buf, j);
        ValueStep(policy, now, buf, goal, loop);
        p := ValueNext(p, buf[j]);
        j := j + 1;
      }
    }
    c := c0.(p := p, nread := entered + (j - c0.pos), pos := j);
    if !skipped {
      LoopEnds(policy, c.(nread := c.nread - 1), buf, goal, loop);
    }
    if TooMany(c.nread) {
      return Overflowed(c), Some(j);
    }
    return c, None;
  }

  // ---------- bodies ----------

  function Read(p: Parser, t: nat): Parser {
    if p.state.BodyIdentityEof? || p.contentLength < t then p else p.(contentLength := p.contentLength - t)
  }

  /** Skipping t bytes of a body is reading them one by one. */
  lemma {:induction false} BodySkip(policy: Policy, c: Cursor, buf: seq<byte>, goal: Call, t: nat)
    requires Ready(policy, c, buf, goal) && c.pos + t <= |buf|
    requires c.p.state.BodyIdentityEof? ||
             ((c.p.state.BodyIdentity? || c.p.state.ChunkData?) && t < c.p.contentLength)
    ensures var d := if t == 0 then c else SetMarkAt(c, Some(Body));
            Ready(policy, d.(p := Read(c.p, t), pos := c.pos + t), buf, goal)
    decreases t
  {
    hide Ready, CaseOf;
    if t > 0 {
      ReadyStep(policy, c, buf, goal);
      BulkCases(c.p, buf[c.pos]);
      var d := SetMarkAt(c, Some(Body)).(p := Read(c.p, 1), pos := c.pos + 1);
      BodySkip(policy, d, buf, goal, t - 1);
    }
  }

  /** The assertions at the head of the body cases. */
  lemma BodyAssertions(policy: Policy, c: Cursor, buf: seq<byte>, goal: Call)
    requires Ready(policy, c, buf, goal)
    requires c.p.state.BodyIdentity? || c.p.state.ChunkData?
    ensures c.p.contentLength != 0 && c.p.contentLength != ULLONG_MAX
    ensures c.p.state.ChunkData? ==> c.p.flags.chunked
    ensures MarksInBuffer(c.marks, c.pos)
  {
    hide LimitAt, View, MethodString, IsFieldState, FieldIndexFits, ValueIndexFits;
  }

  lemma LastBodyByte(policy: Policy, c: Cursor, buf: seq<byte>, goal: Call)
    requires Ready(policy, c, buf, goal) && c.pos < |buf|
    requires c.p.state.BodyIdentity? && c.p.contentLength == 1
    ensures MarksInBuffer(c.marks, c.pos)
    ensures var d := SetMarkAt(c, Some(Body)).(p := c.p.(contentLength := 0, state := MessageDone));
            MarksInBuffer(d.marks, d.pos) && Busy(policy, CloseMarkAt(d, CloseAfter(Body), buf), buf, goal)
  {
    hide Ready, Busy, Ended, CaseOf, CloseMarkAt;
    ReadyFits(policy, c, buf, goal);
    ReadyIsBusy(policy, c, buf, goal);
    BusyEffect(policy, c, buf, goal);
    BulkCases(c.p, buf[c.pos]);
  }

  /** A body of known length: takes what the buffer holds of it in one go. */
  method BodyIdentityBulk(policy: Policy, c0: Cursor, buf: seq<byte>, ghost goal: Call)
    returns (c: Cursor, done: Option<nat>)
    requires c0.p.state.BodyIdentity? && c0.pos < |buf| && Ready(policy, c0, buf, goal)
    ensures done.None? ==> c0.pos < c.pos <= |buf| && Ready(policy, c, buf, goal)
    ensures done.Some? ==> Ended(c, done.value, goal)
  {
    hide Ready, Busy, Ended, CloseMarkAt;
    BodyAssertions(policy, c0, buf, goal);
    assert c0.p.contentLength != 0 && c0.p.contentLength != ULLONG_MAX;
    var toRead := if c0.p.contentLength < |buf| - c0.pos then c0.p.contentLength else |buf| - c0.pos;
    c := SetMarkAt(c0, Some(Body));
    c := c.(p := c0.p.(contentLength := c0.p.contentLength - toRead), pos := c0.pos + toRead - 1);
    if c.p.contentLength > 0 {
      BodySkip(policy, c0, buf, goal, toRead);
      return c.(pos := c0.pos + toRead), None;
    }
    BodySkip(policy, c0, buf, goal, toRead - 1);
    ghost var d := if toRead == 1 then c0 else SetMarkAt(c0, Some(Body));
    LastBodyByte(policy, d.(p := c0.p.(contentLength := 1), pos := c0.pos + toRead - 1), buf, goal);
    c := CloseMarkAt(c.(p := c.p.(state := MessageDone)), CloseAfter(Body), buf);
    c, done := Dispatch(policy, c, buf, goal);
  }

  /** Chunk data: takes what the buffer holds of the chunk in one go. */
  method ChunkDataBulk(policy: Policy, c0: Cursor, buf: seq<byte>, ghost goal: Call) returns (c: Cursor)
    requires c0.p.state.ChunkData? && c0.pos < |buf| && Ready(policy, c0, buf, goal)
    ensures c0.pos < c.pos <= |buf| && Ready(policy, c, buf, goal)
  {
    hide Ready, CaseOf;
    BodyAssertions(policy, c0, buf, goal);
    assert c0.p.flags.chunked;
    assert c0.p.contentLength != 0 && c0.p.contentLength != ULLONG_MAX;
    var toRead := if c0.p.contentLength < |buf| - c0.pos then c0.p.contentLength else |buf| - c0.pos;
    c := SetMarkAt(c0, Some(Body));
    c := c.(p := c0.p.(contentLength := c0.p.contentLength - toRead), pos := c0.pos + toRead);
    if c.p.contentLength > 0 {
      BodySkip(policy, c0, buf, goal, toRead);
    } else {
      BodySkip(policy, c0, buf, goal, toRead - 1);
      ghost var d := if toRead == 1 then c0 else SetMarkAt(c0, Some(Body));
      d := d.(p := c0.p.(contentLength := 1), pos := c0.pos + toRead - 1);
      ReadyStep(policy, d, buf, goal);
      BulkCases(d.p, buf[d.pos]);
      c := c.(p := c.p.(state := ChunkDataAlmostDone));
    }
  }

  // ---------- http_parser_execute ----------

  /** The marks that are set before the first byte. */
  function InitialMarks(s: State): map<DataKind, nat> {
    if s.HeaderField? then map[Field := 0]
    else if s.HeaderValue? then map[Value := 0]
    else if InUrl(s) then map[Url := 0]
    else if s.ResStatus? then map[Status := 0]
    else map[]
  }

  /** Reports the data of mark k that is left over at the end of the buffer. */
  function FlushAt(c: Cursor, k: DataKind, buf: seq<byte>): Cursor
    requires c.pos == |buf| && MarksInBuffer(c.marks, c.pos)
  {
    if k in c.marks then c.(calls := c.calls + [Data(k, buf[c.marks[k]..])], marks := c.marks - {k}) else c
  }

  function FlushAll(c: Cursor, buf: seq<byte>): Cursor
    requires c.pos == |buf| && MarksInBuffer(c.marks, c.pos)
  {
    FlushAt(FlushAt(FlushAt(FlushAt(FlushAt(c, Field, buf), Value, buf), Url, buf), Body, buf), Status, buf)
  }

  lemma FlushView(c: Cursor, buf: seq<byte>)
    requires c.pos == |buf| && MarksInBuffer(c.marks, c.pos) && AtMostOneMark(c.marks)
    ensures var d := FlushAll(c, buf);
            d == c.(calls := d.calls, marks := map[]) && Canon(d.calls) == Flushed(View(c, buf))
  {
    hide Canon, Emit;
    if k :| k in c.marks {
      assert c.marks - {k} == map[];
      CanonSnoc(c.calls, Data(k, buf[c.marks[k]..]));
      assert buf[c.marks[k]..] == buf[c.marks[k]..c.pos];
    } else {
      assert c.marks == map[];
    }
  }

  lemma EnterView(policy: Policy, s: Session, calls: seq<Event>, buf: seq<byte>)
    requires s.errno == OK && Inv(s.p) && NreadFits(s.p, s.nread) && s.trace == Canon(calls)
    ensures Ready(policy, Cursor(s.p, OK, s.nread, calls, InitialMarks(s.p.state), 0), buf,
                  LimitAt(policy, Enter(s), buf, 0, None))
  {
    hide LimitAt, Inv, Canon;
    assert buf[0..0] == [];
  }

  lemma AtTheEnd(policy: Policy, c: Cursor, buf: seq<byte>, goal: Call)
    requires Ready(policy, c, buf, goal) && c.pos == |buf|
    ensures Inv(c.p) && NreadFits(c.p, c.nread) && MarksInBuffer(c.marks, c.pos) && AtMostOneMark(c.marks)
    ensures goal == Call(HttpMachine.Session(c.p, OK, c.nread, Flushed(View(c, buf))), |buf|, Running)
  {
    hide Inv, OpenOf;
  }

  /** One turn of the loop over the buffer. */
  method OneCase(policy: Policy, c0: Cursor, buf: seq<byte>, ghost goal: Call)
    returns (c: Cursor, done: Option<nat>)
    requires c0.pos < |buf| && Ready(policy, c0, buf, goal)
    ensures done.None? ==> c.pos > c0.pos && Ready(policy, c, buf, goal)
    ensures done.Some? ==> Ended(c, done.value, goal)
  {
    hide Ready, Ended, Busy, MarksInBuffer;
    c := CountAt(c0);
    if Bulk(c0.p.state) {
      LoopBegins(policy, c0, buf, goal);
    } else {
      ReadyIsBusy(policy, c0, buf, goal);
    }
    if ParsingHeader(c.p.state) && TooMany(c.nread) {
      return Overflowed(c), Some(c.pos);
    }
    ReadyFits(policy, c0, buf, goal);
    if c.p.state.HeaderField? {
      c, done := HeaderFieldLoop(policy, c0, buf, goal);
    } else if c.p.state.HeaderValue? {
      c, done := HeaderValueLoop(policy, c0, buf, goal);
    } else if c.p.state.BodyIdentity? {
      c, done := BodyIdentityBulk(policy, c, buf, goal);
    } else if c.p.state.BodyIdentityEof? {
      BodySkip(policy, c, buf, goal, |buf| - c.pos);
      c, done := SetMarkAt(c, Some(Body)).(pos := |buf|), None;
    } else if c.p.state.ChunkData? {
      c := ChunkDataBulk(policy, c, buf, goal);
      done := None;
    } else {
      c, done := Dispatch(policy, c, buf, goal);
    }
  }

  /** The end of the stream, on a cursor. */
  lemma EndOfStreamView(policy: Policy, s: Session, calls: seq<Event>)
    requires s.errno == OK && s.trace == Canon(calls) && Inv(s.p) && NreadFits(s.p, s.nread)
    ensures var call := EndOfStream(policy, s);
            var c := FireNoteAt(policy, Cursor(s.p, OK, s.nread, calls, map[], 0), MessageComplete);
            if s.p.state.BodyIdentityEof? then
              && call == Call(HttpMachine.Session(c.p, c.errno, c.nread, Canon(c.calls)), 0, Left(false))
              && Inv(c.p) && NreadFits(c.p, c.nread)
            else if s.p.state.Dead? || s.p.state.StartReqOrRes? || s.p.state.StartRes? || s.p.state.StartReq? then
              call.after == s && call.count == 0
            else call.after == s.(errno := InvalidEofState) && call.count == 1
  {
    hide Inv, Canon, Emit, NoteErrno, Reopen, Run;
    var c := Cursor(s.p, OK, s.nread, calls, map[], 0);
    FireNoteView(policy, c, MessageComplete, []);
  }

  /** struct http_parser, with the callback invocations it has made. */
  class HttpParser {
    var typ: ParserType
    var flags: Flags
    var state: State
    var headerState: HeaderState
    var index: nat
    var nread: nat
    var contentLength: nat
    var major: nat
    var minor: nat
    var statusCode: nat
    var verb: Method
    var errno: Errno
    var upgrade: bool
    var calls: seq<Event>

    function Record(): Parser
      reads this
    {
      Parser(typ, flags, state, headerState, index, contentLength, major, minor, statusCode, verb, upgrade)
    }

    ghost function Session(): Session
      reads this
    {
      HttpMachine.Session(Record(), errno, nread, Canon(calls))
    }

    ghost predicate Valid()
      reads this
    {
      errno == OK || errno == Paused ==> Inv(Record()) && NreadFits(Record(), nread)
    }

    /** http_parser_init. */
    constructor (typ: ParserType)
      ensures Valid() && Session() == HttpMachine.Session(InitialParser(typ), OK, 0, [])
    {
      var p := InitialParser(typ);
      this.typ, flags, state, headerState, index := typ, p.flags, p.state, p.headerState, p.index;
      contentLength, major, minor, statusCode := p.contentLength, p.major, p.minor, p.statusCode;
      verb, upgrade, errno, nread, calls := p.verb, p.upgrade, OK, 0, [];
      new;
      InitialParserIsSafe(typ);
    }

    /** http_parser_pause. */
    method Pause(paused: bool)
      requires Valid() && (errno == OK || errno == Paused)
      modifies this`errno
      ensures Valid() && errno == if paused then Paused else OK
    {
      errno := if paused then Paused else OK;
    }

    method Store(c: Cursor)
      modifies this
      ensures Record() == c.p && errno == c.errno && nread == c.nread && calls == c.calls
    {
      typ, flags, state, headerState, index := c.p.typ, c.p.flags, c.p.state, c.p.headerState, c.p.index;
      contentLength, major, minor, statusCode := c.p.contentLength, c.p.major, c.p.minor, c.p.statusCode;
      verb, upgrade, errno, nread, calls := c.p.verb, c.p.upgrade, c.errno, c.nread, c.calls;
    }

    /** http_parser_execute on an empty buffer: the end of the stream. */
    method Finish(policy: Policy) returns (count: nat)
      requires Valid() && errno == OK
      modifies this
      ensures Valid() && var call := EndOfStream(policy, old(Session())); Session() == call.after && count == call.count
    {
      hide Inv, Canon, EndOfStream, FireNoteAt;
      EndOfStreamView(policy, Session(), calls);
      if state.BodyIdentityEof? {
        Store(FireNoteAt(policy, Cursor(Record(), OK, nread, calls, map[], 0), MessageComplete));
        return 0;
      } else if state.Dead? || state.StartReqOrRes? || state.StartRes? || state.StartReq? {
        return 0;
      } else {
        errno := InvalidEofState;
        return 1;
      }
    }

    /** http_parser_execute. */
    method Execute(policy: Policy, buf: seq<byte>) returns (count: nat)
      requires Valid()
      modifies this
      ensures Valid()
      ensures var call := Limited(policy, old(Session()), buf); Session() == call.after && count == call.count
    {
      hide Ready, Ended, Inv, LimitAt, FlushAll, MarksInBuffer, AtMostOneMark, Canon, Flushed, Enter;
      if errno != OK {
        return 0;
      }
      if buf == [] {
        count := Finish(policy);
        return;
      }
      ghost var goal := Limited(policy, Session(), buf);
      var c := Cursor(Record(), OK, nread, calls, InitialMarks(state), 0);
      EnterView(policy, Session(), calls, buf);
      while c.pos < |buf|
        invariant c.pos <= |buf| && Ready(policy, c, buf, goal)
        decreases |buf| - c.pos
      {
        var done: Option<nat>;
        c, done := OneCase(policy, c, buf, goal);
        if done.Some? {
          EndedIsGoal(c, done.value, goal);
          Store(c);
          return done.value;
        }
        ReadyFits(policy, c, buf, goal);
      }
      AtTheEnd(policy, c, buf, goal);
      assert AtMostOneMark(c.marks);
      FlushView(c, buf);
      ReadyFits(policy, c, buf, goal);
      Store(FlushAll(c, buf));
      return |buf|;
    }
  }

  lemma EndedIsGoal(c: Cursor, count: nat, goal: Call)
    requires Ended(c, count, goal)
    ensures goal.count == count && goal.after == HttpMachine.Session(c.p, c.errno, c.nread, Canon(c.calls))
    ensures c.errno == OK || c.errno == Paused ==> Inv(c.p) && NreadFits(c.p, c.nread)
  {
  }
}
