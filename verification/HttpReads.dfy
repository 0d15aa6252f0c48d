/** Reading words: what a run over some bytes reports and where it leaves the parser, when callbacks
    do not object. */
module HttpReads {
  import opened Common
  import opened HttpTypes
  import opened HttpCases
  import opened HttpMachine
  import opened HttpSplit
  import opened HttpCounting

  /** A machine without an error; the count of header bytes is of no interest here. */
  function At(p: Parser, trace: seq<Event>, open: Open): Machine { Machine(p, OK, 0, trace, open) }

  /** From m all of w is read, and leads to n. */
  ghost predicate Reads(m: Machine, w: seq<byte>, n: Machine) {
    var r := Run(Willing(), m, w);
    r.outcome.Running? && r.count == |w| && r.m == n.(nread := r.m.nread)
  }

  lemma ReadsNothing(m: Machine)
    ensures Reads(m, [], m)
  {
  }

  lemma ReadsNread(m: Machine, w: seq<byte>, n: Machine, k: nat)
    requires Reads(m, w, n)
    ensures Reads(m.(nread := k), w, n)
  {
    RunNread(Willing(), m, w, k);
    hide Run;
  }

  lemma ReadsAppend(m: Machine, a: seq<byte>, n: Machine, b: seq<byte>, o: Machine)
    requires Reads(m, a, n) && Reads(n, b, o)
    ensures Reads(m, a + b, o)
  {
    var r := Run(Willing(), m, a);
    RunAppend(Willing(), m, a, b);
    RunNread(Willing(), n, b, r.m.nread);
    assert r.m == n.(nread := r.m.nread);
    hide Run;
  }

  // ---------- one byte ----------

  lemma ReadsOne(m: Machine, ch: byte, n: Machine)
    requires var (s, outcome) := Step(Willing(), m, ch); outcome.Running? && s == n.(nread := s.nread)
    ensures Reads(m, [ch], n)
  {
    OnlyStep(m, ch, n);
  }

  /** A case that only changes the parser. */
  lemma ReadsPlain(p: Parser, trace: seq<Event>, open: Open, ch: byte, q: Parser)
    requires CaseOf(p, ch) == Case(q, Advance)
    ensures Reads(At(p, trace, open), [ch], At(q, trace, if open.Open? then Open(open.kind, open.bytes + [ch]) else Closed))
  {
    hide CaseOf, Emit;
    ReadsOne(At(p, trace, open), ch, At(q, trace, if open.Open? then Open(open.kind, open.bytes + [ch]) else Closed));
  }

  /** A case that begins to collect. */
  lemma ReadsMark(p: Parser, trace: seq<Event>, ch: byte, q: Parser, kind: DataKind)
    requires CaseOf(p, ch) == Case(q, Advance, mark := Some(kind))
    ensures Reads(At(p, trace, Closed), [ch], At(q, trace, Open(kind, [ch])))
  {
    hide CaseOf, Emit;
    assert [] + [ch] == [ch];
    ReadsOne(At(p, trace, Closed), ch, At(q, trace, Open(kind, [ch])));
  }

  /** A case of which the mark was set already. */
  lemma ReadsMore(p: Parser, trace: seq<Event>, bytes: seq<byte>, ch: byte, q: Parser, kind: DataKind)
    requires CaseOf(p, ch) == Case(q, Advance, mark := Some(kind))
    ensures Reads(At(p, trace, Open(kind, bytes)), [ch], At(q, trace, Open(kind, bytes + [ch])))
  {
    hide CaseOf, Emit;
    ReadsOne(At(p, trace, Open(kind, bytes)), ch, At(q, trace, Open(kind, bytes + [ch])));
  }

  /** A case that reports what was collected before its byte. */
  lemma ReadsClose(p: Parser, trace: seq<Event>, bytes: seq<byte>, ch: byte, q: Parser, kind: DataKind)
    requires CaseOf(p, ch) == Case(q, Advance, close := CloseBefore(kind))
    ensures Reads(At(p, trace, Open(kind, bytes)), [ch], At(q, Emit(trace, Data(kind, bytes)), Closed))
  {
    hide CaseOf, Emit;
    ReadsOne(At(p, trace, Open(kind, bytes)), ch, At(q, Emit(trace, Data(kind, bytes)), Closed));
  }

  /** A case that notifies. */
  lemma ReadsFire(p: Parser, trace: seq<Event>, ch: byte, k: Case)
    requires CaseOf(p, ch) == k && k.next.Advance? && k.fire.Fire? && k.mark.None? && k.close.NoClose?
    ensures Reads(At(p, trace, Closed), [ch], At(k.p, trace + [Notify(k.fire.note, k.p)], Closed))
  {
    hide CaseOf;
    ReadsOne(At(p, trace, Closed), ch, At(k.p, trace + [Notify(k.fire.note, k.p)], Closed));
  }

  /** A case that hands the byte on, perhaps with a notification. */
  lemma ReadsOn(p: Parser, trace: seq<Event>, ch: byte, k: Case, n: Machine)
    requires CaseOf(p, ch) == k && k.next.Reexec? && k.mark.None? && k.close.NoClose?
    requires Reads(At(k.p, if k.fire.Fire? then trace + [Notify(k.fire.note, k.p)] else trace, Closed), [ch], n)
    ensures Reads(At(p, trace, Closed), [ch], n)
  {
    var t := if k.fire.Fire? then trace + [Notify(k.fire.note, k.p)] else trace;
    var m, c := At(k.p, t, Closed), Count(At(p, trace, Closed));
    var mid := m.(nread := if k.resetNread then 0 else c.nread);
    assert Perform(Willing(), c, k, ch) == (mid, Again) by { hide CaseOf; }
    assert Switch(Willing(), c, ch) == Switch(Willing(), mid, ch);
    SwitchNread(Willing(), Count(m), ch, mid.nread);
    assert Count(m).(nread := mid.nread) == mid;
    OnlyStep(m, ch, n);
    OnlyStep(At(p, trace, Closed), ch, n);
    hide CaseOf, Switch;
  }

  lemma OnlyStep(m: Machine, ch: byte, n: Machine)
    ensures Reads(m, [ch], n) <==>
            var (s, outcome) := Step(Willing(), m, ch); outcome.Running? && s == n.(nread := s.nread)
  {
    hide Step;
    assert [ch][1..] == [];
    var (s, outcome) := Step(Willing(), m, ch);
    assert Run(Willing(), s, []) == RunResult(s, Running, 0);
  }
}
