/** Bodies, written down, are read as what they are. */
module HttpBodies {
  import opened Common
  import opened HttpTypes
  import opened HttpCases
  import opened HttpMachine
  import HttpSplit
  import HttpFraming
  import opened HttpReads
  import opened HttpKeywords

  // ---------- the end of the header ----------

  /** A case that reports nothing, whatever becomes of nread. */
  lemma ReadsSilent(p: Parser, trace: seq<Event>, ch: byte, k: Case)
    requires CaseOf(p, ch) == k && k.next.Advance? && k.fire.Silent? && k.mark.None? && k.close.NoClose?
    ensures Reads(At(p, trace, Closed), [ch], At(k.p, trace, Closed))
  {
    hide CaseOf, Emit;
    ReadsOne(At(p, trace, Closed), ch, At(k.p, trace, Closed));
  }

  /** What follows the header is HTTP. */
  predicate StaysHttp(p: Parser) { !(p.flags.upgrade && p.flags.connectionUpgrade) && !p.verb.CONNECT? }

  /** The parser that on_headers_complete sees. */
  function Announced(p: Parser): Parser { p.(state := HeadersDone, upgrade := false) }

  lemma BlankLineCases(p: Parser)
    requires p.state.HeaderFieldStart? && !p.flags.trailing && StaysHttp(p)
    ensures CaseOf(p, CR) == Case(p.(state := HeadersAlmostDone), Advance)
    ensures CaseOf(p.(state := HeadersAlmostDone), LF) == Case(Announced(p), Reexec, fire := Fire(HeadersComplete, false))
  {
  }

  lemma BlankLine(p: Parser, trace: seq<Event>, n: Machine)
    requires p.state.HeaderFieldStart? && !p.flags.trailing && StaysHttp(p)
    requires Reads(At(Announced(p), trace + [Notify(HeadersComplete, Announced(p))], Closed), [LF], n)
    ensures Reads(At(p, trace, Closed), [CR, LF], n)
  {
    hide CaseOf, Reads;
    BlankLineCases(p);
    var q := p.(state := HeadersAlmostDone);
    ReadsPlain(p, trace, Closed, CR, q);
    ReadsOn(q, trace, LF, CaseOf(q, LF), n);
    ReadsAppend(At(p, trace, Closed), [CR], At(q, trace, Closed), [LF], n);
    assert [CR] + [LF] == [CR, LF];
  }

  /** Statuses that have no body: 1xx, 204 and 304. */
  predicate IsBodiless(status: nat) { 100 <= status < 200 || status == 204 || status == 304 }

  /** What the header says of the body. */
  datatype Kind = InChunks | OfLength(n: nat) | NoBody | ToTheEnd

  function KindOf(p: Parser): Kind {
    if p.flags.chunked then InChunks
    else if p.contentLength != ULLONG_MAX then (if p.contentLength == 0 then NoBody else OfLength(p.contentLength))
    else if p.typ.Request? || IsBodiless(p.statusCode) then NoBody
    else ToTheEnd
  }

  lemma HeadersDoneCases(p: Parser, ch: byte)
    requires p.state.HeadersDone? && !p.upgrade && !p.flags.skipBody
    ensures var k := CaseOf(p, ch);
            && k.next.Advance? && k.mark.None? && k.close.NoClose?
            && match KindOf(p)
               case InChunks => k.fire.Silent? && k.p == p.(state := ChunkSizeStart)
               case OfLength(n) => k.fire.Silent? && k.p == p.(state := BodyIdentity)
               case NoBody => k.fire == Fire(MessageComplete, true) && k.p == p.(state := StartState(p.typ))
               case ToTheEnd => k.fire.Silent? && k.p == p.(state := BodyIdentityEof)
  {
  }

  function AfterHeader(p: Parser): State {
    match KindOf(p)
    case InChunks => ChunkSizeStart
    case OfLength(_) => BodyIdentity
    case NoBody => StartState(p.typ)
    case ToTheEnd => BodyIdentityEof
  }

  /** The end of the header: it is reported, and the body begins, or the message has ended. */
  lemma HeaderEnds(p: Parser, trace: seq<Event>)
    requires p.state.HeaderFieldStart? && !p.flags.trailing && !p.flags.skipBody && StaysHttp(p)
    ensures var h := Announced(p);
            var q, t := h.(state := AfterHeader(h)), trace + [Notify(HeadersComplete, h)];
            Reads(At(p, trace, Closed), [CR, LF],
                  At(q, if KindOf(h).NoBody? then t + [Notify(MessageComplete, q)] else t, Closed))
  {
    hide CaseOf, Reads;
    var h := Announced(p);
    var q, t := h.(state := AfterHeader(h)), trace + [Notify(HeadersComplete, h)];
    HeadersDoneCases(h, LF);
    if KindOf(h).NoBody? {
      ReadsFire(h, t, LF, CaseOf(h, LF));
    } else {
      ReadsSilent(h, t, LF, CaseOf(h, LF));
    }
    BlankLine(p, trace, At(q, if KindOf(h).NoBody? then t + [Notify(MessageComplete, q)] else t, Closed));
  }

  // ---------- a body of known length ----------

  function OpenBody(bytes: seq<byte>): Open { if bytes == [] then Closed else Open(Body, bytes) }

  lemma BodyCases(p: Parser, ch: byte)
    requires p.state.BodyIdentity? && p.contentLength > 0
    ensures p.contentLength > 1 ==>
              CaseOf(p, ch) == Case(p.(contentLength := p.contentLength - 1), Advance, mark := Some(Body))
    ensures p.contentLength == 1 ==>
              CaseOf(p, ch) == Case(p.(contentLength := 0, state := MessageDone), Reexec, mark := Some(Body), close := CloseAfter(Body))
  {
  }

  lemma MarkedByte(p: Parser, trace: seq<Event>, bytes: seq<byte>, ch: byte, q: Parser)
    requires CaseOf(p, ch) == Case(q, Advance, mark := Some(Body))
    ensures Reads(At(p, trace, OpenBody(bytes)), [ch], At(q, trace, OpenBody(bytes + [ch])))
  {
    hide CaseOf, Reads;
    if bytes == [] {
      ReadsMark(p, trace, ch, q, Body);
      assert bytes + [ch] == [ch];
    } else {
      ReadsMore(p, trace, bytes, ch, q, Body);
    }
  }

  lemma DoneCase(p: Parser, ch: byte)
    requires p.state.MessageDone? && !p.upgrade
    ensures var k := CaseOf(p, ch);
            && k.next.Advance? && k.mark.None? && k.close.NoClose? && k.fire == Fire(MessageComplete, true)
            && k.p == p.(state := StartState(p.typ))
  {
  }

  /** The last byte of a body is reported with the others, and the message has ended. */
  lemma LastByte(p: Parser, trace: seq<Event>, bytes: seq<byte>, ch: byte)
    requires p.state.BodyIdentity? && p.contentLength == 1 && !p.upgrade
    ensures var q := p.(contentLength := 0, state := StartState(p.typ));
            Reads(At(p, trace, OpenBody(bytes)), [ch],
                  At(q, Emit(trace, Data(Body, bytes + [ch])) + [Notify(MessageComplete, q)], Closed))
  {
    var m, k := At(p, trace, OpenBody(bytes)), CaseOf(p, ch);
    var done := p.(contentLength := 0, state := MessageDone);
    var q, t := p.(contentLength := 0, state := StartState(p.typ)), Emit(trace, Data(Body, bytes + [ch]));
    BodyCases(p, ch);
    DoneCase(done, ch);
    assert [] + [ch] == [ch];
    assert Count(m) == m;
    assert Perform(HttpSplit.Willing(), m, k, ch) == (At(done, t, Closed), Again) by { hide CaseOf, Emit; }
    ReadsFire(done, t, ch, CaseOf(done, ch));
    OnlyStep(At(done, t, Closed), ch, At(q, t + [Notify(MessageComplete, q)], Closed));
    OnlyStep(m, ch, At(q, t + [Notify(MessageComplete, q)], Closed));
    assert Count(At(done, t, Closed)) == At(done, t, Closed);
    assert Switch(HttpSplit.Willing(), m, ch) == Switch(HttpSplit.Willing(), At(done, t, Closed), ch) by { hide CaseOf; }
    hide CaseOf, Switch, Emit;
  }

  lemma {:induction false} BytesAreRead(p: Parser, trace: seq<Event>, bytes: seq<byte>, w: seq<byte>)
    requires p.state.BodyIdentity? && p.contentLength == |w| > 0 && !p.upgrade
    ensures var q := p.(contentLength := 0, state := StartState(p.typ));
            Reads(At(p, trace, OpenBody(bytes)), w, At(q, Emit(trace, Data(Body, bytes + w)) + [Notify(MessageComplete, q)], Closed))
    decreases |w|
  {
    hide CaseOf, Reads;
    var q := p.(contentLength := 0, state := StartState(p.typ));
    if |w| == 1 {
      LastByte(p, trace, bytes, w[0]);
      assert [w[0]] == w;
    } else {
      var r := p.(contentLength := p.contentLength - 1);
      BodyCases(p, w[0]);
      MarkedByte(p, trace, bytes, w[0], r);
      BytesAreRead(r, trace, bytes + [w[0]], w[1..]);
      ReadsAppend(At(p, trace, OpenBody(bytes)), [w[0]], At(r, trace, OpenBody(bytes + [w[0]])), w[1..],
                  At(q, Emit(trace, Data(Body, bytes + [w[0]] + w[1..])) + [Notify(MessageComplete, q)], Closed));
      assert [w[0]] + w[1..] == w && bytes + [w[0]] + w[1..] == bytes + w;
    }
  }

  /** A body of the length that was announced. */
  lemma BodyIsHeard(p: Parser, trace: seq<Event>, w: seq<byte>)
    requires p.state.BodyIdentity? && p.contentLength == |w| > 0 && !p.upgrade
    ensures var q := p.(contentLength := 0, state := StartState(p.typ));
            Reads(At(p, trace, Closed), w, At(q, Emit(trace, Data(Body, w)) + [Notify(MessageComplete, q)], Closed))
  {
    BytesAreRead(p, trace, [], w);
    assert [] + w == w;
    hide Reads;
  }

  /** A body that ends with the stream. */
  lemma RestIsHeard(p: Parser, trace: seq<Event>, w: seq<byte>)
    requires p.state.BodyIdentityEof?
    ensures Reads(At(p, trace, Closed), w, At(p, trace, OpenBody(w)))
  {
    HttpFraming.ReadsToTheEnd(HttpSplit.Willing(), At(p, trace, Closed), w);
    assert [] + w == w;
    hide Run;
  }

  // ---------- chunks ----------

  /** A chunk: its size in hexadecimal digits, parameters, and its data. */
  datatype Chunk = Chunk(size: seq<byte>, parameters: seq<byte>, data: seq<byte>)

  predicate AreParameters(w: seq<byte>) { CR !in w && (w != [] ==> w[0] == 59 || w[0] == 32) }

  predicate GoodSize(c: Chunk) {
    IsChunkSize(c.size) && AreParameters(c.parameters) && Hexadecimal(c.size) == |c.data| < ULLONG_MAX - 15
  }

  function SizeText(c: Chunk): seq<byte> { c.size + (c.parameters + [CR, LF]) }

  function ChunkText(c: Chunk): seq<byte> { SizeText(c) + (c.data + [CR, LF]) }

  lemma SizeByte(p: Parser, ch: byte)
    requires (p.state.ChunkSizeStart? || p.state.ChunkSize?) && Unhex(ch) != -1 && CaseOf(p, ch).next.Advance?
    ensures var k := CaseOf(p, ch);
            k == Case(k.p, Advance) && k.p == p.(state := ChunkSize, contentLength := k.p.contentLength)
  {
    HexIsNoLineEnd(ch);
    hide Unhex, AddChunkDigit;
  }

  lemma HexIsNoLineEnd(ch: byte)
    ensures Unhex(ch) != -1 ==> ch != CR && ch != 59 && ch != SP
  {
  }

  lemma {:induction false} SizeIsRead(p: Parser, trace: seq<Event>, w: seq<byte>)
    requires p.state.ChunkSizeStart? && IsChunkSize(w) && Follow(p, w).Some?
    ensures var q := Follow(p, w).value;
            && q == p.(state := ChunkSize, contentLength := q.contentLength)
            && Reads(At(p, trace, Closed), w, At(q, trace, Closed))
    decreases |w|
  {
    hide CaseOf, Reads, Unhex;
    var n := |w| - 1;
    assert w == w[..n] + [w[n]] && Unhex(w[n]) != -1;
    if n == 0 {
      assert w[..0] == [];
      SizeByte(p, w[0]);
      ReadsPlain(p, trace, Closed, w[0], CaseOf(p, w[0]).p);
    } else {
      SizeIsRead(p, trace, w[..n]);
      var q := Follow(p, w[..n]).value;
      SizeByte(q, w[n]);
      ReadsPlain(q, trace, Closed, w[n], CaseOf(q, w[n]).p);
      ReadsAppend(At(p, trace, Closed), w[..n], At(q, trace, Closed), [w[n]], At(CaseOf(q, w[n]).p, trace, Closed));
    }
  }

  lemma SizeEnds(p: Parser, ch: byte)
    ensures p.state.ChunkSize? || p.state.ChunkParameters? ==>
              CaseOf(p, CR) == Case(p.(state := ChunkSizeAlmostDone), Advance)
    ensures p.state.ChunkSize? && (ch == 59 || ch == 32) ==> CaseOf(p, ch) == Case(p.(state := ChunkParameters), Advance)
    ensures p.state.ChunkParameters? && ch != CR ==> CaseOf(p, ch) == Case(p, Advance)
    ensures p.state.ChunkSizeAlmostDone? ==>
              var k := CaseOf(p, ch);
              && k.next.Advance? && k.mark.None? && k.close.NoClose? && k.fire == Fire(ChunkHeader, true)
              && k.p == if p.contentLength == 0 then p.(flags := p.flags.(trailing := true), state := HeaderFieldStart)
                        else p.(state := ChunkData)
  {
  }

  lemma {:induction false} ParametersAreRead(p: Parser, trace: seq<Event>, w: seq<byte>)
    requires p.state.ChunkParameters? && CR !in w
    ensures Reads(At(p, trace, Closed), w, At(p, trace, Closed))
    decreases |w|
  {
    hide CaseOf, Reads;
    if w == [] {
      ReadsNothing(At(p, trace, Closed));
    } else {
      SizeEnds(p, w[0]);
      ReadsPlain(p, trace, Closed, w[0], p);
      ParametersAreRead(p, trace, w[1..]);
      ReadsAppend(At(p, trace, Closed), [w[0]], At(p, trace, Closed), w[1..], At(p, trace, Closed));
      assert [w[0]] + w[1..] == w;
    }
  }

  /** Parameters, or none, and the end of the line. */
  lemma SizeLineEnds(p: Parser, trace: seq<Event>, w: seq<byte>)
    requires p.state.ChunkSize? && AreParameters(w)
    ensures var q := if p.contentLength == 0 then p.(flags := p.flags.(trailing := true), state := HeaderFieldStart)
                     else p.(state := ChunkData);
            Reads(At(p, trace, Closed), w + [CR, LF], At(q, trace + [Notify(ChunkHeader, q)], Closed))
  {
    hide CaseOf, Reads;
    var q := if p.contentLength == 0 then p.(flags := p.flags.(trailing := true), state := HeaderFieldStart)
             else p.(state := ChunkData);
    var r, t := p.(state := ChunkParameters), trace + [Notify(ChunkHeader, q)];
    var last := p.(state := ChunkSizeAlmostDone);
    SizeEnds(last, LF);
    ReadsFire(last, trace, LF, CaseOf(last, LF));
    if w == [] {
      SizeEnds(p, CR);
      ReadsPlain(p, trace, Closed, CR, last);
    } else {
      SizeEnds(p, w[0]);
      ReadsPlain(p, trace, Closed, w[0], r);
      ParametersAreRead(r, trace, w[1..]);
      SizeEnds(r, CR);
      ReadsPlain(r, trace, Closed, CR, last);
      ReadsAppend(At(p, trace, Closed), [w[0]], At(r, trace, Closed), w[1..], At(r, trace, Closed));
      assert [w[0]] + w[1..] == w;
      ReadsAppend(At(p, trace, Closed), w, At(r, trace, Closed), [CR], At(last, trace, Closed));
    }
    assert [] + [CR] == [CR];
    ReadsAppend(At(p, trace, Closed), w + [CR], At(last, trace, Closed), [LF], At(q, t, Closed));
    assert w + [CR] + [LF] == w + [CR, LF];
  }

  /** The line that begins a chunk: its size is announced. */
  lemma SizeIsHeard(p: Parser, trace: seq<Event>, c: Chunk)
    requires p.state.ChunkSizeStart? && GoodSize(c)
    ensures var s := p.(contentLength := |c.data|);
            var q := if c.data == [] then s.(flags := p.flags.(trailing := true), state := HeaderFieldStart)
                     else s.(state := ChunkData);
            Reads(At(p, trace, Closed), SizeText(c), At(q, trace + [Notify(ChunkHeader, q)], Closed))
  {
    hide CaseOf, Reads, Hexadecimal, IsChunkSize;
    ChunkSizeValue(p, c.size);
    SizeIsRead(p, trace, c.size);
    var s := Follow(p, c.size).value;
    SizeLineEnds(s, trace, c.parameters);
    var q := if c.data == [] then s.(flags := p.flags.(trailing := true), state := HeaderFieldStart)
             else s.(state := ChunkData);
    ReadsAppend(At(p, trace, Closed), c.size, At(s, trace, Closed), c.parameters + [CR, LF],
                At(q, trace + [Notify(ChunkHeader, q)], Closed));
  }

  lemma DataCases(p: Parser, ch: byte)
    requires p.state.ChunkData? && p.contentLength > 0
    ensures var q := p.(contentLength := p.contentLength - 1);
            CaseOf(p, ch) ==
              Case(if q.contentLength == 0 then q.(state := ChunkDataAlmostDone) else q, Advance, mark := Some(Body))
  {
  }

  lemma {:induction false} DataIsRead(p: Parser, trace: seq<Event>, bytes: seq<byte>, w: seq<byte>)
    requires p.state.ChunkData? && p.contentLength == |w| > 0
    ensures Reads(At(p, trace, OpenBody(bytes)), w,
                  At(p.(contentLength := 0, state := ChunkDataAlmostDone), trace, OpenBody(bytes + w)))
    decreases |w|
  {
    hide CaseOf, Reads;
    var q := p.(contentLength := 0, state := ChunkDataAlmostDone);
    DataCases(p, w[0]);
    if |w| == 1 {
      MarkedByte(p, trace, bytes, w[0], q);
      assert [w[0]] == w;
    } else {
      var r := p.(contentLength := p.contentLength - 1);
      MarkedByte(p, trace, bytes, w[0], r);
      DataIsRead(r, trace, bytes + [w[0]], w[1..]);
      ReadsAppend(At(p, trace, OpenBody(bytes)), [w[0]], At(r, trace, OpenBody(bytes + [w[0]])), w[1..],
                  At(q, trace, OpenBody(bytes + [w[0]] + w[1..])));
      assert [w[0]] + w[1..] == w && bytes + [w[0]] + w[1..] == bytes + w;
    }
  }

  lemma DataEnds(p: Parser, ch: byte)
    ensures p.state.ChunkDataAlmostDone? ==>
              CaseOf(p, ch) == Case(p.(state := ChunkDataDone), Advance, close := CloseBefore(Body))
    ensures p.state.ChunkDataDone? ==>
              var k := CaseOf(p, ch);
              && k.next.Advance? && k.mark.None? && k.close.NoClose? && k.fire == Fire(ChunkComplete, true)
              && k.p == p.(state := ChunkSizeStart)
  {
  }

  /** What a chunk that is not the last one reports. */
  function ChunkEvents(trace: seq<Event>, p: Parser, c: Chunk): seq<Event> {
    var q := p.(contentLength := |c.data|, state := ChunkData);
    Emit(trace + [Notify(ChunkHeader, q)], Data(Body, c.data)) +
    [Notify(ChunkComplete, p.(contentLength := 0, state := ChunkSizeStart))]
  }

  lemma ChunkIsHeard(p: Parser, trace: seq<Event>, c: Chunk)
    requires p.state.ChunkSizeStart? && GoodSize(c) && c.data != []
    ensures Reads(At(p, trace, Closed), ChunkText(c), At(p.(contentLength := 0), ChunkEvents(trace, p, c), Closed))
  {
    hide CaseOf, Reads, GoodSize;
    var q := p.(contentLength := |c.data|, state := ChunkData);
    var t := trace + [Notify(ChunkHeader, q)];
    var last, done := q.(contentLength := 0, state := ChunkDataAlmostDone), q.(contentLength := 0, state := ChunkDataDone);
    var u := Emit(t, Data(Body, c.data));
    SizeIsHeard(p, trace, c);
    DataIsRead(q, t, [], c.data);
    assert [] + c.data == c.data;
    DataEnds(last, CR);
    ReadsClose(last, t, c.data, CR, done, Body);
    DataEnds(done, LF);
    ReadsFire(done, u, LF, CaseOf(done, LF));
    ReadsAppend(At(last, t, OpenBody(c.data)), [CR], At(done, u, Closed), [LF],
                At(p.(contentLength := 0), ChunkEvents(trace, p, c), Closed));
    assert [CR] + [LF] == [CR, LF];
    ReadsAppend(At(q, t, Closed), c.data, At(last, t, OpenBody(c.data)), [CR, LF],
                At(p.(contentLength := 0), ChunkEvents(trace, p, c), Closed));
    ReadsAppend(At(p, trace, Closed), SizeText(c), At(q, t, Closed), c.data + [CR, LF],
                At(p.(contentLength := 0), ChunkEvents(trace, p, c), Closed));
  }

  /** What the last chunk, of size 0, and the blank line behind it report. */
  function LastEvents(trace: seq<Event>, p: Parser): seq<Event> {
    var q := p.(contentLength := 0, flags := p.flags.(trailing := true), state := HeaderFieldStart);
    trace + [Notify(ChunkHeader, q)] + [Notify(ChunkComplete, q.(state := MessageDone))]
    + [Notify(MessageComplete, q.(state := StartState(p.typ)))]
  }

  lemma TrailerCases(p: Parser)
    requires p.flags.trailing
    ensures p.state.HeaderFieldStart? ==> CaseOf(p, CR) == Case(p.(state := HeadersAlmostDone), Advance)
    ensures p.state.HeadersAlmostDone? ==>
              CaseOf(p, LF) == Case(p.(state := MessageDone), Reexec, fire := Fire(ChunkComplete, false))
  {
  }

  lemma LastChunkIsHeard(p: Parser, trace: seq<Event>, c: Chunk)
    requires p.state.ChunkSizeStart? && GoodSize(c) && c.data == [] && !p.upgrade
    ensures var q := p.(contentLength := 0, flags := p.flags.(trailing := true), state := StartState(p.typ));
            Reads(At(p, trace, Closed), SizeText(c) + [CR, LF], At(q, LastEvents(trace, p), Closed))
  {
    hide CaseOf, Reads, GoodSize;
    var s := p.(contentLength := 0, flags := p.flags.(trailing := true), state := HeaderFieldStart);
    var a, d, q := s.(state := HeadersAlmostDone), s.(state := MessageDone), s.(state := StartState(p.typ));
    var t := trace + [Notify(ChunkHeader, s)];
    var u := t + [Notify(ChunkComplete, d)];
    SizeIsHeard(p, trace, c);
    TrailerCases(s);
    TrailerCases(a);
    DoneCase(d, LF);
    ReadsPlain(s, t, Closed, CR, a);
    ReadsFire(d, u, LF, CaseOf(d, LF));
    ReadsOn(a, t, LF, CaseOf(a, LF), At(q, LastEvents(trace, p), Closed));
    ReadsAppend(At(s, t, Closed), [CR], At(a, t, Closed), [LF], At(q, LastEvents(trace, p), Closed));
    assert [CR] + [LF] == [CR, LF];
    ReadsAppend(At(p, trace, Closed), SizeText(c), At(s, t, Closed), [CR, LF], At(q, LastEvents(trace, p), Closed));
  }
}
