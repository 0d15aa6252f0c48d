/** The state of http_parser_execute while it walks over a buffer: marks are positions
    in the buffer, and callbacks are invoked with slices of it. */
module HttpCursor {
  import opened Common
  import opened HttpTypes
  import opened HttpCases
  import opened HttpMachine
  import opened HttpSplit

  /** marks holds the marks that are set (in the source one pointer per data callback,
      null when unset); calls are the callback invocations so far. */
  datatype Cursor = Cursor(
    p: Parser, errno: Errno, nread: nat, calls: seq<Event>, marks: map<DataKind, nat>, pos: nat)

  // ---------- what a cursor means ----------

  predicate MarksInBuffer(marks: map<DataKind, nat>, pos: nat) {
    forall k | k in marks :: marks[k] <= pos
  }

  /** The assertion at the end of http_parser_execute. */
  predicate AtMostOneMark(marks: map<DataKind, nat>) {
    forall k, k' | k in marks && k' in marks :: k == k'
  }

  function OpenOf(marks: map<DataKind, nat>, buf: seq<byte>, pos: nat): Open
    requires pos <= |buf| && MarksInBuffer(marks, pos)
  {
    if Field in marks then Open(Field, buf[marks[Field]..pos])
    else if Value in marks then Open(Value, buf[marks[Value]..pos])
    else if Url in marks then Open(Url, buf[marks[Url]..pos])
    else if Body in marks then Open(Body, buf[marks[Body]..pos])
    else if Status in marks then Open(Status, buf[marks[Status]..pos])
    else Closed
  }

  ghost predicate Fits(c: Cursor, buf: seq<byte>) {
    && c.pos <= |buf| && MarksInBuffer(c.marks, c.pos) && AtMostOneMark(c.marks)
    && MarksFit(c.p.state, OpenOf(c.marks, buf, c.pos))
  }

  /** The machine that a cursor stands for. */
  ghost function View(c: Cursor, buf: seq<byte>): Machine
    requires c.pos <= |buf| && MarksInBuffer(c.marks, c.pos)
  {
    Machine(c.p, c.errno, c.nread, Canon(c.calls), OpenOf(c.marks, buf, c.pos))
  }

  // ---------- marks and callbacks ----------

  function SetMarkAt(c: Cursor, k: Option<DataKind>): Cursor {
    if k.Some? && k.value !in c.marks then c.(marks := c.marks[k.value := c.pos]) else c
  }

  function CloseMarkAt(c: Cursor, closing: Closing, buf: seq<byte>): (d: Cursor)
    requires c.pos < |buf| && MarksInBuffer(c.marks, c.pos)
    ensures d == c.(calls := d.calls, marks := d.marks)
  {
    if closing.NoClose? || closing.kind !in c.marks then c
    else
      var end := if closing.CloseAfter? then c.pos + 1 else c.pos;
      c.(calls := c.calls + [Data(closing.kind, buf[c.marks[closing.kind]..end])],
         marks := c.marks - {closing.kind})
  }

  function PrepareAt(c: Cursor, k: Case, buf: seq<byte>): Cursor
    requires c.pos < |buf| && MarksInBuffer(c.marks, c.pos)
  {
    CloseMarkAt(SetMarkAt(c.(p := k.p, nread := if k.resetNread then 0 else c.nread), k.mark), k.close, buf)
  }

  function FireNoteAt(policy: Policy, c: Cursor, note: Note): Cursor {
    var calls := c.calls + [Notify(note, c.p)];
    var a := policy(Canon(calls));
    c.(p := Notified(c.p, note, a), errno := NoteErrno(note, a), calls := calls)
  }

  lemma SetMarkView(c: Cursor, k: Option<DataKind>, buf: seq<byte>)
    requires c.pos <= |buf| && MarksInBuffer(c.marks, c.pos) && AtMostOneMark(c.marks)
    requires var o := OpenOf(c.marks, buf, c.pos); k.Some? && o.Open? ==> o.kind == k.value
    ensures var d := SetMarkAt(c, k);
            MarksInBuffer(d.marks, d.pos) && AtMostOneMark(d.marks) &&
            OpenOf(d.marks, buf, d.pos) == SetMark(OpenOf(c.marks, buf, c.pos), k)
  {
  }

  lemma CloseMarkView(c: Cursor, closing: Closing, buf: seq<byte>)
    requires c.pos < |buf| && MarksInBuffer(c.marks, c.pos) && AtMostOneMark(c.marks)
    ensures var d := CloseMarkAt(c, closing, buf);
            MarksInBuffer(d.marks, d.pos) && AtMostOneMark(d.marks) &&
            View(d, buf) == CloseMark(View(c, buf), closing, buf[c.pos])
  {
    hide Canon, Emit;
    if !closing.NoClose? && closing.kind in c.marks {
      var s := c.marks[closing.kind];
      assert OpenOf(c.marks, buf, c.pos) == Open(closing.kind, buf[s..c.pos]);
      assert buf[s..c.pos] + [buf[c.pos]] == buf[s..c.pos + 1];
      CanonSnoc(c.calls, CloseMarkAt(c, closing, buf).calls[|c.calls|]);
      assert forall k | k in c.marks :: k == closing.kind;
    }
  }

  lemma PrepareView(c: Cursor, k: Case, buf: seq<byte>)
    requires Fits(c, buf) && c.pos < |buf| && MarkRules(c.p.state, k)
    ensures var d := PrepareAt(c, k, buf);
            && MarksInBuffer(d.marks, d.pos) && AtMostOneMark(d.marks)
            && View(d, buf) == Prepare(View(c, buf), k, buf[c.pos])
  {
    hide Canon, Emit, OpenOf, CloseMark, CloseMarkAt;
    assert k.mark.Some? && OpenOf(c.marks, buf, c.pos).Open? ==> OpenOf(c.marks, buf, c.pos).kind == k.mark.value;
    hide MarkRules, MarksFit, CollectedIn, Reopen;
    var d := c.(p := k.p, nread := if k.resetNread then 0 else c.nread);
    SetMarkView(d, k.mark, buf);
    CloseMarkView(SetMarkAt(d, k.mark), k.close, buf);
  }

  lemma FireNoteView(policy: Policy, c: Cursor, note: Note, buf: seq<byte>)
    requires c.pos <= |buf| && MarksInBuffer(c.marks, c.pos)
    ensures View(FireNoteAt(policy, c, note), buf) == FireNote(policy, View(c, buf), note)
  {
    CanonSnoc(c.calls, Notify(note, c.p));
  }

  /** Moving on to the next byte collects the current one. */
  lemma NextByteView(c: Cursor, buf: seq<byte>)
    requires c.pos < |buf| && MarksInBuffer(c.marks, c.pos)
    ensures View(c.(pos := c.pos + 1), buf) == Collect(View(c, buf), buf[c.pos])
  {
    hide Canon;
    forall s: nat | s <= c.pos ensures buf[s..c.pos] + [buf[c.pos]] == buf[s..c.pos + 1] {
    }
  }
}
