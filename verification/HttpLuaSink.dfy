/** The Lua sink of the parser: callbacks fill a Lua table, joining data that arrives in pieces. */
module HttpLuaSink {
  import opened Common
  import opened HttpTypes
  import opened HttpCases
  import opened HttpMachine
  import opened HttpInvariant
  import opened HttpTokens
  import opened HttpLimit
  import opened HttpStreams

  type Bytes = seq<byte>

  /** The Lua table: its named fields, and its array part, which holds header names and
      values in turn until the message is complete. */
  datatype Table = Table(
    complete: bool, isRequest: bool, url: Option<Bytes>, status: Option<Bytes>, body: Option<Bytes>,
    items: seq<Bytes>, headers: Option<map<Bytes, Bytes>>,
    version: Option<(nat, nat)>, verb: Option<Method>, statusCode: Option<nat>,
    upgrade: bool, keepalive: Option<bool>, failed: bool)

  const EMPTY := Table(false, false, None, None, None, [], None, None, None, None, false, None, false)

  // ---------- what a callback does, on values ----------

  function Joined(o: Option<Bytes>, x: Bytes): Option<Bytes> {
    if o.Some? then Some(o.value + x) else Some(x)
  }

  function JoinLast(items: seq<Bytes>, x: Bytes): (r: seq<Bytes>)
    requires items != []
    ensures |r| == |items|
  {
    items[..|items|-1] + [items[|items|-1] + x]
  }

  /** The header table after adding the pairs of names and values in order. */
  function WithPairs(headers: map<Bytes, Bytes>, items: seq<Bytes>): map<Bytes, Bytes>
    requires |items| % 2 == 0
  {
    if items == [] then headers
    else
      var n := |items|;
      WithPairs(headers, items[..n-2])[items[n-2] := items[n-1]]
  }

  /** A value without a name makes Lua raise an error, which is recorded in failed. */
  function OnData(t: Table, kind: DataKind, x: Bytes): Table {
    match kind
    case Url => t.(url := Joined(t.url, x), isRequest := true)
    case Status => t.(status := Joined(t.status, x))
    case Body => t.(body := Joined(t.body, x))
    case Field => t.(items := if |t.items| % 2 == 0 then t.items + [x] else JoinLast(t.items, x))
    case Value =>
      if |t.items| % 2 != 0 then t.(items := t.items + [x])
      else if t.items == [] then t.(failed := true)
      else t.(items := JoinLast(t.items, x))
  }

  function OnNote(t: Table, note: Note, seen: Parser): Table {
    match note
    case MessageBegin => t.(complete := false)
    case HeadersComplete =>
      var u := t.(version := Some((seen.major, seen.minor)));
      if t.isRequest then u.(verb := Some(seen.verb)) else u.(statusCode := Some(seen.statusCode))
    case MessageComplete =>
      if |t.items| % 2 != 0 then t
      else t.(headers := Some(WithPairs(if t.headers.Some? then t.headers.value else map[], t.items)),
              items := [], upgrade := t.upgrade || seen.upgrade,
              keepalive := Some(ShouldKeepAlive(seen)), complete := true)
    case ChunkHeader => t
    case ChunkComplete => t
  }

  function OnEvent(t: Table, e: Event): Table {
    match e
    case Data(kind, bytes) => OnData(t, kind, bytes)
    case Notify(note, seen) => OnNote(t, note, seen)
  }

  function TableOf(calls: seq<Event>): Table {
    if calls == [] then EMPTY else OnEvent(TableOf(calls[..|calls|-1]), calls[|calls|-1])
  }

  // ---------- the table does not depend on how data was cut ----------

  lemma ItemsJoin(items: seq<Bytes>, x: Bytes, y: Bytes)
    ensures JoinLast(items + [x], y) == items + [x + y]
    ensures items != [] ==> JoinLast(JoinLast(items, x), y) == JoinLast(items, x + y)
  {
    if items != [] {
      assert items[|items|-1] + x + y == items[|items|-1] + (x + y);
    }
  }

  lemma JoinedTwice(o: Option<Bytes>, x: Bytes, y: Bytes)
    ensures Joined(Joined(o, x), y) == Joined(o, x + y)
  {
    if o.Some? {
      assert o.value + x + y == o.value + (x + y);
    }
  }

  lemma DataJoins(t: Table, k: DataKind, x: Bytes, y: Bytes)
    ensures OnData(OnData(t, k, x), k, y) == OnData(t, k, x + y)
  {
    hide JoinLast, Joined;
    match k
    case Url => JoinedTwice(t.url, x, y);
    case Status => JoinedTwice(t.status, x, y);
    case Body => JoinedTwice(t.body, x, y);
    case Field => ItemsJoin(t.items, x, y);
    case Value => ItemsJoin(t.items, x, y);
  }

  lemma TableOfEmit(trace: seq<Event>, e: Event)
    ensures TableOf(Emit(trace, e)) == OnEvent(TableOf(trace), e)
  {
    hide OnData, OnNote;
    var n := |trace|;
    if e.Data? && n > 0 && trace[n-1].Data? && trace[n-1].kind == e.kind {
      DataJoins(TableOf(trace[..n-1]), e.kind, trace[n-1].bytes, e.bytes);
      assert Emit(trace, e)[..n-1] == trace[..n-1];
    } else {
      assert (trace + [e])[..n] == trace;
    }
  }

  /** The table depends on the callbacks only up to the cutting of data. */
  lemma {:induction false} TableIgnoresCuts(calls: seq<Event>)
    ensures TableOf(calls) == TableOf(Canon(calls))
    decreases |calls|
  {
    hide OnEvent, Emit;
    if calls != [] {
      TableIgnoresCuts(calls[..|calls|-1]);
      TableOfEmit(Canon(calls[..|calls|-1]), calls[|calls|-1]);
    }
  }

  /** What the sink answers: it pauses the parser when a message is complete. */
  function LuaPolicy(): Policy {
    (trace: seq<Event>) =>
      if trace != [] && trace[|trace|-1].Notify? && trace[|trace|-1].note.MessageComplete?
         && |TableOf(trace[..|trace|-1]).items| % 2 == 0 then Answer(0, true)
      else Answer(0, false)
  }

  /** Split invariance as seen from Lua: http_parser_execute on a buffer in two pieces leaves the same
      table behind as on the whole, unless the second piece makes a token fail that was open at the
      cut (or the header is found too long). */
  lemma LuaSplitInvariance(c: Session, a: seq<byte>, b: seq<byte>)
    requires CanGoOn(c) && a != [] && b != [] && Limited(LuaPolicy(), c, a).outcome.Running?
    requires !Limited(LuaPolicy(), Limited(LuaPolicy(), c, a).after, b).after.errno.HeaderOverflow?
    requires !Limited(LuaPolicy(), c, a + b).after.errno.HeaderOverflow?
    ensures var first := Limited(LuaPolicy(), c, a);
            var second := Limited(LuaPolicy(), first.after, b);
            var whole := Limited(LuaPolicy(), c, a + b);
            && Alike(whole, second.(count := first.count + second.count))
            && (!TokenFails(first.after.p, b) ==> TableOf(whole.after.trace) == TableOf(second.after.trace))
  {
    hide TableOf, LuaPolicy, Limited, Inv, TokenFails;
    CutOnce(LuaPolicy(), c, a, b);
  }

  // ---------- the callbacks themselves ----------

  class LuaTable {
    var complete: bool
    var isRequest: bool
    var url: Option<Bytes>
    var status: Option<Bytes>
    var body: Option<Bytes>
    var items: seq<Bytes>
    var headers: Option<map<Bytes, Bytes>>
    var version: Option<(nat, nat)>
    var verb: Option<Method>
    var statusCode: Option<nat>
    var upgrade: bool
    var keepalive: Option<bool>
    var failed: bool

    ghost function Value(): Table
      reads this
    {
      Table(complete, isRequest, url, status, body, items, headers, version, verb, statusCode, upgrade,
            keepalive, failed)
    }

    constructor ()
      ensures Value() == EMPTY
    {
      complete, isRequest, url, status, body, items, headers := false, false, None, None, None, [], None;
      version, verb, statusCode, upgrade, keepalive, failed := None, None, None, false, None, false;
    }

    /** on_url. */
    method OnUrl(x: Bytes)
      modifies this`url, this`isRequest
      ensures Value() == OnData(old(Value()), Url, x)
    {
      if url.None? {
        url := Some(x);
      } else {
        url := Some(url.value + x);
      }
      isRequest := true;
    }

    /** on_header_field: an even number of items means that a new name begins. */
    method OnHeaderField(x: Bytes)
      modifies this`items
      ensures Value() == OnData(old(Value()), Field, x)
    {
      var len := |items|;
      if len % 2 == 0 {
        items := items + [x];
      } else {
        items := items[..len-1] + [items[len-1] + x];
      }
    }

    /** on_header_value: an odd number of items means that a new value begins. */
    method OnHeaderValue(x: Bytes)
      modifies this`items, this`failed
      ensures Value() == OnData(old(Value()), HttpTypes.Value, x)
    {
      var len := |items|;
      if len % 2 != 0 {
        items := items + [x];
      } else if len == 0 {
        failed := true;
      } else {
        items := items[..len-1] + [items[len-1] + x];
      }
    }

    /** on_body. */
    method OnBody(x: Bytes)
      modifies this`body
      ensures Value() == OnData(old(Value()), Body, x)
    {
      if body.None? {
        body := Some(x);
      } else {
        body := Some(body.value + x);
      }
    }

    /** on_message_complete: moves the header pairs into their own table. */
    method OnMessageComplete(seen: Parser) returns (paused: bool)
      modifies this
      ensures Value() == OnNote(old(Value()), MessageComplete, seen)
      ensures paused == (|old(items)| % 2 == 0)
    {
      var len := |items|;
      if len % 2 != 0 {
        return false;
      }
      var table: map<Bytes, Bytes> := if headers.Some? then headers.value else map[];
      ghost var before := table;
      var i := 0;
      while i < len
        invariant 0 <= i <= len && i % 2 == 0
        invariant table == WithPairs(before, items[..i])
      {
        assert items[..i+2][..i] == items[..i];
        table := table[items[i] := items[i+1]];
        i := i + 2;
      }
      assert items[..len] == items;
      headers, items := Some(table), [];
      if seen.upgrade {
        upgrade := true;
      }
      keepalive, complete := Some(ShouldKeepAlive(seen)), true;
      return true;
    }
  }
}
