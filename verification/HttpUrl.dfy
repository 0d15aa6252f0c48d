/** http_parser_parse_url: the parts of a URL. */
module HttpUrl {
  import opened Common
  import opened HttpTypes
  import opened HttpCases

  datatype UrlField = Schema | Userinfo | Host | Port | Path | Query | Fragment

  /** A part of the buffer. */
  datatype Span = Span(off: nat, len: nat)

  datatype Fields = Fields(spans: map<UrlField, Span>, port: int)

  // ---------- the two automata ----------

  /** enum http_host_state. */
  datatype HostState =
    | HostDead | UserinfoStart | UserinfoPart | HostStart | V6Start | HostPart | V6Part | V6End | PortStart | PortPart

  predicate IsHex(ch: byte) { IsNum(ch) || 'a' as int <= Lower(ch) <= 'f' as int }

  predicate IsHostChar(ch: byte) {
    IsAlpha(ch) || IsNum(ch) || ch == '.' as int || ch == '-' as int || ch == '_' as int
  }

  /** http_parse_host_char. */
  function HostNext(s: HostState, ch: byte): HostState {
    match s
    case HostDead => HostDead
    case UserinfoStart => UserinfoNext(ch)
    case UserinfoPart => UserinfoNext(ch)
    case HostStart => if ch == '[' as int then V6Start else if IsHostChar(ch) then HostPart else HostDead
    case HostPart => if IsHostChar(ch) then HostPart else if ch == ':' as int then PortStart else HostDead
    case V6End => if ch == ':' as int then PortStart else HostDead
    case V6Part => if ch == ']' as int then V6End else V6Next(ch)
    case V6Start => V6Next(ch)
    case PortStart => if IsNum(ch) then PortPart else HostDead
    case PortPart => if IsNum(ch) then PortPart else HostDead
  }

  function UserinfoNext(ch: byte): HostState {
    if ch == '@' as int then HostStart else if IsUserinfoChar(ch) then UserinfoPart else HostDead
  }

  function V6Next(ch: byte): HostState {
    if IsHex(ch) || ch == ':' as int || ch == '.' as int then V6Part else HostDead
  }

  function StartOf(connect: bool): State { if connect then ReqServerStart else ReqSpacesBeforeUrl }

  /** The state after byte i. */
  function After(buf: seq<byte>, connect: bool, i: nat): State
    requires i < |buf|
  {
    UrlNext(if i == 0 then StartOf(connect) else After(buf, connect, i - 1), buf[i])
  }

  predicate InServer(s: State) { s.ReqServer? || s.ReqServerWithAt? }

  /** Whether byte i belongs to the server part. */
  predicate ServerAt(buf: seq<byte>, connect: bool, i: nat)
    requires i < |buf|
  {
    InServer(After(buf, connect, i))
  }

  /** found_at. */
  ghost predicate HasAt(buf: seq<byte>, connect: bool, n: nat)
    requires n <= |buf|
  {
    exists i: nat | i < n :: After(buf, connect, i).ReqServerWithAt?
  }

  /** The state of the second automaton after byte i of the server part. */
  function HostAt(buf: seq<byte>, connect: bool, at: bool, i: nat): HostState
    requires i < |buf|
  {
    HostNext(
      if i > 0 && ServerAt(buf, connect, i - 1) then HostAt(buf, connect, at, i - 1)
      else if at then UserinfoStart else HostStart,
      buf[i])
  }

  // ---------- how far a URL has got ----------

  /** Both automata only move forward; the rank says how far. */
  function UrlRank(s: State): nat {
    if s.ReqSpacesBeforeUrl? then 0
    else if s.ReqSchema? then 1
    else if s.ReqSchemaSlash? || s.ReqSchemaSlashSlash? || s.ReqServerStart? then 2
    else if InServer(s) then 3
    else if s.ReqPath? then 4
    else if s.ReqQueryStringStart? then 5
    else if s.ReqQueryString? then 6
    else if s.ReqFragmentStart? then 7
    else 8
  }

  function HostRank(s: HostState): nat {
    match s
    case UserinfoStart => 0
    case UserinfoPart => 1
    case HostStart => 2
    case V6Start => 3
    case HostPart => 4
    case V6Part => 4
    case V6End => 5
    case PortStart => 6
    case PortPart => 7
    case HostDead => 8
  }

  /** How far byte i has got. */
  function Rank(buf: seq<byte>, connect: bool, at: bool, i: nat): nat
    requires i < |buf|
  {
    if ServerAt(buf, connect, i) then 30 + HostRank(HostAt(buf, connect, at, i))
    else 10 * UrlRank(After(buf, connect, i))
  }

  /** The place of a field among the others. */
  function FieldRank(f: UrlField): nat {
    match f
    case Schema => 10
    case Userinfo => 31
    case Host => 34
    case Port => 37
    case Path => 40
    case Query => 60
    case Fragment => 80
  }

  /** No byte leads to a dead end. */
  ghost predicate Alive(buf: seq<byte>, connect: bool, n: nat)
    requires n <= |buf|
  {
    forall i: nat | i < n :: !After(buf, connect, i).Dead?
  }

  ghost predicate HostAlive(buf: seq<byte>, connect: bool, at: bool, n: nat)
    requires n <= |buf|
  {
    forall i: nat | i < n && ServerAt(buf, connect, i) :: !HostAt(buf, connect, at, i).HostDead?
  }

  lemma UrlAdvances(s: State, ch: byte)
    requires !UrlNext(s, ch).Dead?
    ensures UrlRank(s) <= UrlRank(UrlNext(s, ch))
  {
  }

  lemma HostAdvances(s: HostState, ch: byte)
    ensures HostRank(s) <= HostRank(HostNext(s, ch))
    ensures HostRank(s) == HostRank(HostNext(s, ch)) && s != UserinfoStart ==> HostNext(s, ch) == s
  {
  }

  /** The rank never falls from one byte to the next. */
  lemma RankAdvances(buf: seq<byte>, connect: bool, at: bool, i: nat)
    requires i + 1 < |buf| && Alive(buf, connect, |buf|)
    ensures Rank(buf, connect, at, i) <= Rank(buf, connect, at, i + 1)
  {
    hide UrlNext, HostNext;
    assert !After(buf, connect, i + 1).Dead? && !After(buf, connect, i).Dead?;
    UrlAdvances(After(buf, connect, i), buf[i+1]);
    if ServerAt(buf, connect, i) && ServerAt(buf, connect, i + 1) {
      HostAdvances(HostAt(buf, connect, at, i), buf[i+1]);
    }
  }

  lemma {:induction false} RankMonotone(buf: seq<byte>, connect: bool, at: bool, i: nat, j: nat)
    requires i <= j < |buf| && Alive(buf, connect, |buf|)
    ensures Rank(buf, connect, at, i) <= Rank(buf, connect, at, j)
    decreases j
  {
    hide Rank, Alive;
    if i < j {
      RankMonotone(buf, connect, at, i, j - 1);
      RankAdvances(buf, connect, at, j - 1);
    }
  }

  // ---------- labelled bytes ----------

  type Labels = seq<Option<UrlField>>

  function Count(ls: Labels, f: UrlField): (n: nat)
    ensures n <= |ls|
  {
    if ls == [] then 0 else Count(ls[..|ls|-1], f) + if ls[|ls|-1] == Some(f) then 1 else 0
  }

  /** The first place of a label, or the length if there is none. */
  function First(ls: Labels, f: UrlField): (n: nat)
    ensures n <= |ls|
    ensures forall i | 0 <= i < n :: ls[i] != Some(f)
    ensures n < |ls| ==> ls[n] == Some(f)
  {
    if ls == [] then 0
    else
      var n := First(ls[..|ls|-1], f);
      if n < |ls| - 1 then n else if ls[|ls|-1] == Some(f) then |ls| - 1 else |ls|
  }

  lemma {:induction false} CountZero(ls: Labels, f: UrlField)
    ensures Count(ls, f) == 0 <==> First(ls, f) == |ls|
  {
    if ls != [] {
      CountZero(ls[..|ls|-1], f);
    }
  }

  /** The bytes labelled f are next to each other. */
  ghost predicate Together(ls: Labels, f: UrlField) {
    forall i, j, k | 0 <= i < j < k < |ls| && ls[i] == Some(f) && ls[k] == Some(f) :: ls[j] == Some(f)
  }

  lemma LabelsSnoc(ls: Labels, l: Option<UrlField>, f: UrlField)
    ensures Count(ls + [l], f) == Count(ls, f) + if l == Some(f) then 1 else 0
    ensures First(ls + [l], f) ==
              if First(ls, f) < |ls| then First(ls, f) else if l == Some(f) then |ls| else |ls| + 1
    ensures Count(ls, f) == 0 <==> First(ls, f) == |ls|
  {
    assert (ls + [l])[..|ls|] == ls;
    CountZero(ls, f);
  }

  lemma NoLabels(f: UrlField)
    ensures First([], f) == 0 && Count([], f) == 0
  {
  }

  /** The first byte labelled f and the number of them say which they are. */
  ghost predicate IsSpan(ls: Labels, f: UrlField) {
    && First(ls, f) + Count(ls, f) <= |ls|
    && forall i | 0 <= i < |ls| :: ls[i] == Some(f) <==> First(ls, f) <= i < First(ls, f) + Count(ls, f)
  }

  lemma SpanStep(ls: Labels, l: Option<UrlField>, f: UrlField)
    requires IsSpan(ls, f) && (l == Some(f) && Count(ls, f) > 0 ==> First(ls, f) + Count(ls, f) == |ls|)
    ensures IsSpan(ls + [l], f)
  {
    hide Count, First;
    LabelsSnoc(ls, l, f);
  }

  /** Then the first of them and their number say which they are. */
  lemma {:induction false} TogetherIsSpan(ls: Labels, f: UrlField)
    requires Together(ls, f)
    ensures IsSpan(ls, f)
  {
    NoLabels(f);
    hide Count, First;
    if ls != [] {
      var n := |ls| - 1;
      var init := ls[..n];
      assert init + [ls[n]] == ls;
      assert Together(init, f);
      TogetherIsSpan(init, f);
      if ls[n] == Some(f) && Count(init, f) > 0 {
        ReachesEnd(ls, init, f);
      }
      SpanStep(init, ls[n], f);
    }
  }

  lemma ReachesEnd(ls: Labels, init: Labels, f: UrlField)
    requires ls != [] && init == ls[..|ls|-1] && Together(ls, f) && IsSpan(init, f) && Count(init, f) > 0
    requires ls[|ls|-1] == Some(f)
    ensures First(init, f) + Count(init, f) == |init|
  {
    hide Count, First;
    var a, m := First(init, f), |init| - 1;
    assert init[a] == Some(f) && ls[a] == init[a];
    assert a < m ==> ls[m] == Some(f);
    assert init[m] == ls[m];
  }

  lemma {:induction false} SameLabel(ls: Labels, ms: Labels, f: UrlField)
    requires |ls| == |ms| && forall i | 0 <= i < |ls| :: ls[i] == Some(f) <==> ms[i] == Some(f)
    ensures Count(ls, f) == Count(ms, f) && First(ls, f) == First(ms, f)
  {
    if ls != [] {
      SameLabel(ls[..|ls|-1], ms[..|ms|-1], f);
    }
  }

  /** A span is recorded for f exactly if f occurs, from its first byte and as long as it has bytes. */
  ghost predicate Spelled(ls: Labels, f: UrlField, spans: map<UrlField, Span>) {
    && (f in spans <==> Count(ls, f) > 0)
    && (f in spans ==> spans[f] == Span(First(ls, f), Count(ls, f)))
  }

  ghost predicate Spells(ls: Labels, fs: set<UrlField>, spans: map<UrlField, Span>) {
    forall f | f in fs :: Spelled(ls, f, spans)
  }

  function Extended(spans: map<UrlField, Span>, same: bool, f: UrlField, p: nat): map<UrlField, Span> {
    if same && f in spans then spans[f := Span(spans[f].off, spans[f].len + 1)] else spans[f := Span(p, 1)]
  }

  /** The next byte: its field, if any, goes on or begins. */
  lemma SpelledStep(ls: Labels, l: Option<UrlField>, same: bool, f: UrlField, spans: map<UrlField, Span>)
    requires Spelled(ls, f, spans)
    requires l == Some(f) ==> (same <==> f in spans)
    ensures Spelled(ls + [l], f, if l.None? then spans else Extended(spans, same, l.value, |ls|))
  {
    hide Count, First;
    LabelsSnoc(ls, l, f);
  }

  // ---------- the first pass ----------

  function UrlLabel(s: State): Option<UrlField> {
    if s.ReqSchema? then Some(Schema)
    else if InServer(s) then Some(Host)
    else if s.ReqPath? then Some(Path)
    else if s.ReqQueryString? then Some(Query)
    else if s.ReqFragment? then Some(Fragment)
    else None
  }

  function UrlLabels(buf: seq<byte>, connect: bool, n: nat): (ls: Labels)
    requires n <= |buf|
    ensures |ls| == n && forall i | 0 <= i < n :: ls[i] == UrlLabel(After(buf, connect, i))
  {
    if n == 0 then [] else UrlLabels(buf, connect, n - 1) + [UrlLabel(After(buf, connect, n - 1))]
  }

  const URL_FIELDS: set<UrlField> := {Schema, Host, Path, Query, Fragment}

  function PassRank(f: UrlField): nat {
    match f
    case Schema => 1
    case Path => 4
    case Query => 6
    case Fragment => 8
    case _ => 3
  }

  /** The spans found so far are of fields up to the current one, old. */
  ghost predicate InPass(spans: map<UrlField, Span>, old_uf: Option<UrlField>, s: State) {
    && spans.Keys <= URL_FIELDS
    && (spans != map[] ==> old_uf.Some?)
    && (old_uf.Some? ==> old_uf.value in spans && PassRank(old_uf.value) <= UrlRank(s))
    && (forall f | f in spans :: PassRank(f) <= PassRank(old_uf.value))
  }

  lemma PassStep(ls: Labels, spans: map<UrlField, Span>, old_uf: Option<UrlField>, s: State, ch: byte)
    requires Spells(ls, URL_FIELDS, spans) && InPass(spans, old_uf, s) && !UrlNext(s, ch).Dead?
    ensures var l := UrlLabel(UrlNext(s, ch));
            var more := if l.None? then spans else Extended(spans, l == old_uf, l.value, |ls|);
            Spells(ls + [l], URL_FIELDS, more) && InPass(more, if l.None? then old_uf else l, UrlNext(s, ch))
  {
    hide Count, First, UrlNext, Spelled;
    UrlAdvances(s, ch);
    var l := UrlLabel(UrlNext(s, ch));
    LabelRank(UrlNext(s, ch));
    hide UrlRank, UrlLabel;
    if l.Some? && l.value in spans {
      SameRank(l.value, old_uf.value);
    }
    forall f | f in URL_FIELDS
      ensures Spelled(ls + [l], f, if l.None? then spans else Extended(spans, l == old_uf, l.value, |ls|))
    {
      SpelledStep(ls, l, l == old_uf, f, spans);
    }
  }

  lemma SameRank(f: UrlField, g: UrlField)
    requires f in URL_FIELDS && g in URL_FIELDS && PassRank(f) == PassRank(g)
    ensures f == g
  {
  }

  lemma LabelRank(s: State)
    ensures var l := UrlLabel(s); l.Some? ==> PassRank(l.value) == UrlRank(s) && l.value in URL_FIELDS
  {
  }

  lemma KeysInPass(spans: map<UrlField, Span>, old_uf: Option<UrlField>, s: State)
    requires InPass(spans, old_uf, s)
    ensures spans.Keys <= URL_FIELDS
  {
  }

  lemma NextState(buf: seq<byte>, connect: bool, p: nat)
    requires p < |buf|
    ensures After(buf, connect, p) == UrlNext(if p == 0 then StartOf(connect) else After(buf, connect, p - 1), buf[p])
  {
  }

  lemma NextLabel(buf: seq<byte>, connect: bool, p: nat)
    requires p < |buf|
    ensures UrlLabels(buf, connect, p + 1) == UrlLabels(buf, connect, p) + [UrlLabel(After(buf, connect, p))]
  {
  }

  lemma NothingSpelled(s: State, buf: seq<byte>, connect: bool)
    ensures Spells(UrlLabels(buf, connect, 0), URL_FIELDS, map[]) && InPass(map[], None, s)
  {
  }

  /** The loop of http_parser_parse_url. */
  method FindFields(buf: seq<byte>, connect: bool) returns (ok: bool, spans: map<UrlField, Span>, found_at: bool)
    ensures ok <==> Alive(buf, connect, |buf|)
    ensures ok ==> Spells(UrlLabels(buf, connect, |buf|), URL_FIELDS, spans) && spans.Keys <= URL_FIELDS
    ensures ok ==> (found_at <==> HasAt(buf, connect, |buf|))
  {
    hide UrlNext, UrlLabel, Spells, InPass, After, UrlLabels;
    NothingSpelled(StartOf(connect), buf, connect);
    var s := StartOf(connect);
    spans, found_at := map[], false;
    var old_uf: Option<UrlField> := None;
    for p := 0 to |buf|
      invariant s == if p == 0 then StartOf(connect) else After(buf, connect, p - 1)
      invariant Alive(buf, connect, p) && (found_at <==> HasAt(buf, connect, p))
      invariant Spells(UrlLabels(buf, connect, p), URL_FIELDS, spans) && InPass(spans, old_uf, s)
    {
      ghost var ls, before := UrlLabels(buf, connect, p), s;
      s := UrlNext(s, buf[p]);
      NextState(buf, connect, p);
      if s.Dead? {
        return false, spans, found_at;
      }
      PassStep(ls, spans, old_uf, before, buf[p]);
      NextLabel(buf, connect, p);
      if s.ReqServerWithAt? {
        found_at := true;
      }
      var uf := UrlLabel(s);
      if uf.Some? {
        spans := Extended(spans, uf == old_uf, uf.value, p);
        old_uf := uf;
      }
    }
    KeysInPass(spans, old_uf, s);
    ok := true;
  }

  // ---------- the second pass ----------

  function HostLabel(s: HostState): Option<UrlField> {
    match s
    case HostPart => Some(Host)
    case V6Part => Some(Host)
    case PortPart => Some(Port)
    case UserinfoPart => Some(Userinfo)
    case _ => None
  }

  /** The labels that the second pass gives to bytes of the server part. */
  function HostLabels(buf: seq<byte>, connect: bool, at: bool, n: nat): (ls: Labels)
    requires n <= |buf|
    ensures |ls| == n
    ensures forall i | 0 <= i < n ::
              ls[i] == if ServerAt(buf, connect, i) then HostLabel(HostAt(buf, connect, at, i)) else None
  {
    if n == 0 then []
    else
      HostLabels(buf, connect, at, n - 1) +
      [if ServerAt(buf, connect, n - 1) then HostLabel(HostAt(buf, connect, at, n - 1)) else None]
  }

  const HOST_FIELDS: set<UrlField> := {Userinfo, Host, Port}

  /** The fields of the server part that have begun are not beyond the state. */
  ghost predicate InHost(spans: map<UrlField, Span>, s: HostState) {
    && spans.Keys <= HOST_FIELDS
    && (Userinfo in spans ==> HostRank(s) >= 1)
    && (Host in spans ==> HostRank(s) >= 4)
    && (Port in spans ==> s.PortPart?)
    && (HostLabel(s).Some? ==> HostLabel(s).value in spans)
  }

  lemma HostStep(ls: Labels, spans: map<UrlField, Span>, s: HostState, ch: byte)
    requires Spells(ls, HOST_FIELDS, spans) && InHost(spans, s) && !HostNext(s, ch).HostDead?
    ensures var l := HostLabel(HostNext(s, ch));
            var more := if l.None? then spans else Extended(spans, HostNext(s, ch) == s, l.value, |ls|);
            Spells(ls + [l], HOST_FIELDS, more) && InHost(more, HostNext(s, ch))
  {
    hide Count, First, Spelled;
    HostAdvances(s, ch);
    HostSame(s, ch);
    var l := HostLabel(HostNext(s, ch));
    hide HostNext;
    forall f | f in HOST_FIELDS
      ensures Spelled(ls + [l], f, if l.None? then spans else Extended(spans, HostNext(s, ch) == s, l.value, |ls|))
    {
      SpelledStep(ls, l, HostNext(s, ch) == s, f, spans);
    }
  }

  /** A part of the server goes on exactly while its state stays the same. */
  lemma HostSame(s: HostState, ch: byte)
    ensures var t := HostNext(s, ch);
            && (t.HostPart? && s != t ==> HostRank(s) < 4)
            && (t.V6Part? && s != t ==> HostRank(s) < 4)
            && (t.UserinfoPart? && s != t ==> HostRank(s) < 1)
  {
  }

  /** Where the server part may end. */
  predicate GoodEnd(s: HostState) { s.HostPart? || s.V6End? || s.PortPart? }

  /** The bytes from a to b, and no others up to b, are the server part. */
  ghost predicate ServerIs(buf: seq<byte>, connect: bool, a: nat, b: nat)
    requires a <= b <= |buf|
  {
    forall i: nat | i < |buf| :: ServerAt(buf, connect, i) <==> a <= i < b
  }

  /** http_parse_host, on the server part from a to b. */
  method ParseHost(buf: seq<byte>, ghost connect: bool, found_at: bool, a: nat, b: nat)
    returns (ok: bool, spans: map<UrlField, Span>)
    requires a <= b <= |buf| && ServerIs(buf, connect, a, b)
    ensures ok <==> a < b && HostAlive(buf, connect, found_at, b) && GoodEnd(HostAt(buf, connect, found_at, b - 1))
    ensures ok ==> Spells(HostLabels(buf, connect, found_at, b), HOST_FIELDS, spans) && spans.Keys <= HOST_FIELDS
  {
    hide HostNext, HostLabel, Spells, InHost, HostAt, HostLabels;
    var s := if found_at then UserinfoStart else HostStart;
    spans := map[];
    NoHostYet(buf, connect, found_at, a, b, s);
    for p := a to b
      invariant s == if p == a then if found_at then UserinfoStart else HostStart else HostAt(buf, connect, found_at, p - 1)
      invariant HostAlive(buf, connect, found_at, p)
      invariant Spells(HostLabels(buf, connect, found_at, p), HOST_FIELDS, spans) && InHost(spans, s)
    {
      ghost var ls := HostLabels(buf, connect, found_at, p);
      var new_s := HostNext(s, buf[p]);
      NextHost(buf, connect, found_at, a, b, p);
      if new_s.HostDead? {
        return false, spans;
      }
      HostStep(ls, spans, s, buf[p]);
      var f := HostLabel(new_s);
      if f.Some? {
        spans := Extended(spans, new_s == s, f.value, p);
      }
      s := new_s;
    }
    HostKeys(spans, s);
    ok := GoodEnd(s);
  }

  lemma HostKeys(spans: map<UrlField, Span>, s: HostState)
    requires InHost(spans, s)
    ensures spans.Keys <= HOST_FIELDS
  {
  }

  lemma NextHost(buf: seq<byte>, connect: bool, at: bool, a: nat, b: nat, p: nat)
    requires a <= p < b <= |buf| && ServerIs(buf, connect, a, b)
    ensures HostAt(buf, connect, at, p) ==
              HostNext(if p > a then HostAt(buf, connect, at, p - 1) else if at then UserinfoStart else HostStart, buf[p])
    ensures HostLabels(buf, connect, at, p + 1) ==
              HostLabels(buf, connect, at, p) + [HostLabel(HostAt(buf, connect, at, p))]
  {
    assert p > 0 ==> (ServerAt(buf, connect, p - 1) <==> a <= p - 1 < b);
    assert ServerAt(buf, connect, p);
  }

  lemma NoHostYet(buf: seq<byte>, connect: bool, at: bool, a: nat, b: nat, s: HostState)
    requires a <= b <= |buf| && ServerIs(buf, connect, a, b) && (s.UserinfoStart? || s.HostStart?)
    ensures Spells(HostLabels(buf, connect, at, a), HOST_FIELDS, map[]) && InHost(map[], s)
    ensures HostAlive(buf, connect, at, a)
  {
    var ls := HostLabels(buf, connect, at, a);
    forall f | f in HOST_FIELDS ensures Spelled(ls, f, map[]) {
      assert forall i | 0 <= i < |ls| :: ls[i] == None;
      CountZero(ls, f);
    }
  }

  // ---------- both passes ----------

  /** The field that byte i belongs to, if any. */
  function Owner(buf: seq<byte>, connect: bool, at: bool, i: nat): Option<UrlField>
    requires i < |buf|
  {
    if ServerAt(buf, connect, i) then HostLabel(HostAt(buf, connect, at, i)) else UrlLabel(After(buf, connect, i))
  }

  function Owners(buf: seq<byte>, connect: bool, at: bool, n: nat): (ls: Labels)
    requires n <= |buf|
    ensures |ls| == n && forall i | 0 <= i < n :: ls[i] == Owner(buf, connect, at, i)
  {
    if n == 0 then [] else Owners(buf, connect, at, n - 1) + [Owner(buf, connect, at, n - 1)]
  }

  const ALL_FIELDS: set<UrlField> := {Schema, Userinfo, Host, Port, Path, Query, Fragment}

  lemma OwnerRank(buf: seq<byte>, connect: bool, at: bool, i: nat, f: UrlField)
    requires i < |buf| && Alive(buf, connect, |buf|)
    ensures Owner(buf, connect, at, i) == Some(f) <==> Rank(buf, connect, at, i) == FieldRank(f)
  {
    assert !After(buf, connect, i).Dead?;
    AfterInUrl(buf, connect, i);
    hide After, HostAt, UrlNext;
  }

  lemma AfterInUrl(buf: seq<byte>, connect: bool, i: nat)
    requires i < |buf|
    ensures After(buf, connect, i).Dead? || InUrl(After(buf, connect, i))
  {
  }

  /** The bytes of a field are next to each other. */
  lemma OwnersTogether(buf: seq<byte>, connect: bool, at: bool, f: UrlField)
    requires Alive(buf, connect, |buf|)
    ensures Together(Owners(buf, connect, at, |buf|), f)
  {
    hide Owner, Rank, Owners;
    var ls := Owners(buf, connect, at, |buf|);
    forall i, j, k | 0 <= i < j < k < |ls| && ls[i] == Some(f) && ls[k] == Some(f) ensures ls[j] == Some(f) {
      OwnerRank(buf, connect, at, i, f);
      OwnerRank(buf, connect, at, j, f);
      OwnerRank(buf, connect, at, k, f);
      RankMonotone(buf, connect, at, i, j);
      RankMonotone(buf, connect, at, j, k);
    }
  }

  lemma ServerIsSpan(buf: seq<byte>, connect: bool)
    requires Alive(buf, connect, |buf|)
    ensures var ls := UrlLabels(buf, connect, |buf|);
            && First(ls, Host) + Count(ls, Host) <= |buf|
            && ServerIs(buf, connect, First(ls, Host), First(ls, Host) + Count(ls, Host))
  {
    hide After, First, Count, UrlLabels, HostAt;
    var ls := UrlLabels(buf, connect, |buf|);
    forall i, j, k | 0 <= i < j < k < |ls| && ls[i] == Some(Host) && ls[k] == Some(Host) ensures ls[j] == Some(Host) {
      RankMonotone(buf, connect, false, i, j);
      RankMonotone(buf, connect, false, j, k);
    }
    TogetherIsSpan(ls, Host);
    forall i: nat | i < |buf| ensures ServerAt(buf, connect, i) <==> ls[i] == Some(Host) {
    }
  }

  /** The two passes together record the owners of the bytes. */
  lemma PassesCombine(buf: seq<byte>, connect: bool, at: bool, spans: map<UrlField, Span>, more: map<UrlField, Span>)
    requires Spells(UrlLabels(buf, connect, |buf|), URL_FIELDS, spans) && spans.Keys <= URL_FIELDS
    requires Spells(HostLabels(buf, connect, at, |buf|), HOST_FIELDS, more) && more.Keys <= HOST_FIELDS
    ensures Spells(Owners(buf, connect, at, |buf|), ALL_FIELDS, (spans - {Host}) + more)
  {
    hide First, Count, Owners, UrlLabels, HostLabels, After, HostAt;
    var ls := Owners(buf, connect, at, |buf|);
    forall f | f in ALL_FIELDS ensures Spelled(ls, f, (spans - {Host}) + more) {
      if f in HOST_FIELDS {
        SameLabel(HostLabels(buf, connect, at, |buf|), ls, f);
        assert Spelled(HostLabels(buf, connect, at, |buf|), f, more);
      } else {
        SameLabel(UrlLabels(buf, connect, |buf|), ls, f);
        assert Spelled(UrlLabels(buf, connect, |buf|), f, spans);
      }
    }
  }

  lemma {:induction false} NoHostLater(buf: seq<byte>, connect: bool, at: bool, a: nat, b: nat, n: nat, spans: map<UrlField, Span>)
    requires a <= b <= n <= |buf| && ServerIs(buf, connect, a, b)
    requires Spells(HostLabels(buf, connect, at, b), HOST_FIELDS, spans)
    ensures Spells(HostLabels(buf, connect, at, n), HOST_FIELDS, spans)
    decreases n
  {
    hide HostAt, After, Spelled;
    if n > b {
      NoHostLater(buf, connect, at, a, b, n - 1, spans);
      var ls := HostLabels(buf, connect, at, n - 1);
      assert HostLabels(buf, connect, at, n) == ls + [None];
      forall f | f in HOST_FIELDS ensures Spelled(HostLabels(buf, connect, at, n), f, spans) {
        SpelledStep(ls, None, false, f, spans);
      }
    }
  }

  // ---------- the port ----------

  /** The value of the digits from a to b. */
  function Digits(buf: seq<byte>, a: nat, b: nat): int
    requires a <= b <= |buf|
  {
    if a == b then 0 else 10 * Digits(buf, a, b - 1) + (buf[b-1] - '0' as int)
  }

  /** strtoul, on the bytes from off on. */
  method Strtoul(buf: seq<byte>, off: nat, ghost end: nat) returns (v: int)
    requires off <= end <= |buf| && (forall i | off <= i < end :: IsNum(buf[i])) && (end < |buf| ==> !IsNum(buf[end]))
    ensures v == Digits(buf, off, end)
  {
    v := 0;
    var i := off;
    while i < |buf| && IsNum(buf[i])
      invariant off <= i <= end && v == Digits(buf, off, i)
    {
      v := 10 * v + (buf[i] - '0' as int);
      i := i + 1;
    }
  }

  /** The bytes of the port are digits, and what follows them is not. */
  lemma PortIsDigits(buf: seq<byte>, connect: bool, at: bool, i: nat)
    requires i < |buf| && Alive(buf, connect, |buf|) && HostAlive(buf, connect, at, |buf|)
    requires Owner(buf, connect, at, i) == Some(Port)
    ensures IsNum(buf[i])
    ensures i + 1 < |buf| && Owner(buf, connect, at, i + 1) != Some(Port) ==> !IsNum(buf[i+1])
  {
    hide After, UrlNext, HostNext, HostAt, HostLabel;
    PortState(buf, connect, at, i);
    if i + 1 < |buf| {
      assert !After(buf, connect, i + 1).Dead?;
      NextState(buf, connect, i + 1);
      if ServerAt(buf, connect, i + 1) {
        assert !HostAt(buf, connect, at, i + 1).HostDead?;
        PortGoesOn(buf, connect, at, i);
      } else {
        LeavingServer(After(buf, connect, i), buf[i+1]);
      }
    }
  }

  lemma PortGoesOn(buf: seq<byte>, connect: bool, at: bool, i: nat)
    requires i + 1 < |buf| && ServerAt(buf, connect, i) && ServerAt(buf, connect, i + 1)
    requires HostAt(buf, connect, at, i).PortPart? && !HostAt(buf, connect, at, i + 1).HostDead?
    ensures Owner(buf, connect, at, i + 1) == Some(Port)
  {
    hide After;
  }

  lemma PortState(buf: seq<byte>, connect: bool, at: bool, i: nat)
    requires i < |buf| && Owner(buf, connect, at, i) == Some(Port)
    ensures ServerAt(buf, connect, i) && HostAt(buf, connect, at, i).PortPart? && IsNum(buf[i])
  {
    hide After, UrlNext;
  }

  lemma LeavingServer(s: State, ch: byte)
    requires InServer(s) && !UrlNext(s, ch).Dead? && !InServer(UrlNext(s, ch))
    ensures ch == '/' as int || ch == '?' as int
  {
  }

  // ---------- http_parser_parse_url ----------

  ghost predicate HasServer(buf: seq<byte>, connect: bool) {
    exists i: nat | i < |buf| :: ServerAt(buf, connect, i)
  }

  ghost predicate HasSchema(buf: seq<byte>, connect: bool) {
    exists i: nat | i < |buf| :: After(buf, connect, i).ReqSchema?
  }

  /** The last byte of the server part leaves the second automaton in a good state. */
  ghost predicate ServerEndsWell(buf: seq<byte>, connect: bool, at: bool) {
    exists i: nat | i < |buf| :: EndsAt(buf, connect, at, i)
  }

  predicate EndsAt(buf: seq<byte>, connect: bool, at: bool, i: nat)
    requires i < |buf|
  {
    && ServerAt(buf, connect, i) && (i + 1 < |buf| ==> !ServerAt(buf, connect, i + 1))
    && GoodEnd(HostAt(buf, connect, at, i))
  }

  function PortOf(spans: map<UrlField, Span>, buf: seq<byte>): int {
    if Port in spans && spans[Port].off + spans[Port].len <= |buf|
    then Digits(buf, spans[Port].off, spans[Port].off + spans[Port].len) else 0
  }

  /** The URLs that are accepted, given the owners of their bytes. */
  ghost predicate Accepts(buf: seq<byte>, connect: bool, spans: map<UrlField, Span>) {
    && PartsFit(buf, connect)
    && Spells(Owners(buf, connect, HasAt(buf, connect, |buf|), |buf|), ALL_FIELDS, spans)
    && (connect ==> spans.Keys == {Host, Port})
    && PortOf(spans, buf) <= 0xffff
  }

  lemma SpellsOnce(ls: Labels, spans: map<UrlField, Span>, more: map<UrlField, Span>)
    requires Spells(ls, ALL_FIELDS, spans) && Spells(ls, ALL_FIELDS, more)
    ensures spans == more
  {
    forall f: UrlField ensures f in ALL_FIELDS {
      match f case Schema => case Userinfo => case Host => case Port => case Path => case Query => case Fragment =>
    }
    forall f: UrlField ensures (f in spans <==> f in more) && (f in spans ==> spans[f] == more[f]) {
      assert Spelled(ls, f, spans) && Spelled(ls, f, more);
    }
  }

  /** Every span holds the bytes of its field and no others. */
  lemma SpanIsExact(buf: seq<byte>, connect: bool, at: bool, spans: map<UrlField, Span>, f: UrlField, i: nat)
    requires Alive(buf, connect, |buf|) && Spells(Owners(buf, connect, at, |buf|), ALL_FIELDS, spans)
    requires i < |buf| && f in ALL_FIELDS
    ensures Owner(buf, connect, at, i) == Some(f) <==> f in spans && spans[f].off <= i < spans[f].off + spans[f].len
    ensures f in spans ==> spans[f].len > 0 && spans[f].off + spans[f].len <= |buf|
  {
    hide Owner, First, Count, Alive, Owners;
    var ls := Owners(buf, connect, at, |buf|);
    OwnersTogether(buf, connect, at, f);
    TogetherIsSpan(ls, f);
    assert Spelled(ls, f, spans);
  }

  /** The fields come in the order of schema, userinfo, host, port, path, query, fragment, and so
      do not overlap. */
  lemma SpansAreOrdered(buf: seq<byte>, connect: bool, at: bool, spans: map<UrlField, Span>, f: UrlField, g: UrlField)
    requires Alive(buf, connect, |buf|) && Spells(Owners(buf, connect, at, |buf|), ALL_FIELDS, spans)
    requires f in ALL_FIELDS && g in ALL_FIELDS && f in spans && g in spans && FieldRank(f) < FieldRank(g)
    ensures spans[f].off + spans[f].len <= spans[g].off
  {
    hide Owner, Alive, Spells, FieldRank, Rank;
    if |buf| > 0 {
      SpanIsExact(buf, connect, at, spans, f, 0);
      SpanIsExact(buf, connect, at, spans, g, 0);
      var i, j := spans[f].off + spans[f].len - 1, spans[g].off;
      SpanIsExact(buf, connect, at, spans, f, i);
      SpanIsExact(buf, connect, at, spans, g, j);
      OwnerRank(buf, connect, at, i, f);
      OwnerRank(buf, connect, at, j, g);
      if j <= i {
        RankMonotone(buf, connect, at, j, i);
      }
    } else {
      EmptySpells(buf, connect, at, spans, f);
    }
  }

  lemma EmptySpells(buf: seq<byte>, connect: bool, at: bool, spans: map<UrlField, Span>, f: UrlField)
    requires buf == [] && Spells(Owners(buf, connect, at, |buf|), ALL_FIELDS, spans) && f in ALL_FIELDS
    ensures f !in spans
  {
    assert Spelled(Owners(buf, connect, at, |buf|), f, spans);
  }

  predicate IsDelimiter(ch: byte) {
    ch == ':' as int || ch == '/' as int || ch == '@' as int || ch == '[' as int || ch == ']' as int ||
    ch == '?' as int || ch == '#' as int
  }

  /** A byte that belongs to no field is a delimiter. */
  lemma TheRestDelimits(buf: seq<byte>, connect: bool, at: bool, i: nat)
    requires i < |buf| && Alive(buf, connect, |buf|) && HostAlive(buf, connect, at, |buf|)
    requires Owner(buf, connect, at, i) == None
    ensures IsDelimiter(buf[i])
  {
    assert !After(buf, connect, i).Dead?;
    AfterInUrl(buf, connect, i);
    if ServerAt(buf, connect, i) {
      assert !HostAt(buf, connect, at, i).HostDead?;
      HostDelimits(if i > 0 && ServerAt(buf, connect, i - 1) then HostAt(buf, connect, at, i - 1)
                   else if at then UserinfoStart else HostStart, buf[i]);
    } else {
      NextState(buf, connect, i);
      UrlDelimits(if i == 0 then StartOf(connect) else After(buf, connect, i - 1), buf[i]);
    }
    hide After, HostAt;
  }

  lemma UrlDelimits(s: State, ch: byte)
    requires !UrlNext(s, ch).Dead? && UrlLabel(UrlNext(s, ch)).None?
    ensures IsDelimiter(ch)
  {
  }

  lemma HostDelimits(s: HostState, ch: byte)
    requires !HostNext(s, ch).HostDead? && HostLabel(HostNext(s, ch)).None?
    ensures IsDelimiter(ch)
  {
  }

  /** The port is the decimal value of its span. */
  lemma PortSpan(buf: seq<byte>, connect: bool, at: bool, spans: map<UrlField, Span>)
    requires Alive(buf, connect, |buf|) && HostAlive(buf, connect, at, |buf|)
    requires Spells(Owners(buf, connect, at, |buf|), ALL_FIELDS, spans) && Port in spans
    ensures var (off, end) := (spans[Port].off, spans[Port].off + spans[Port].len);
            && off < end <= |buf| && (forall i | off <= i < end :: IsNum(buf[i]))
            && (end < |buf| ==> !IsNum(buf[end]))
  {
    hide Owner, Alive, HostAlive, Spells;
    var (off, end) := (spans[Port].off, spans[Port].off + spans[Port].len);
    if |buf| == 0 {
      EmptySpells(buf, connect, at, spans, Port);
    } else {
      SpanIsExact(buf, connect, at, spans, Port, 0);
      forall i | off <= i < end ensures IsNum(buf[i]) {
        SpanIsExact(buf, connect, at, spans, Port, i);
        PortIsDigits(buf, connect, at, i);
      }
      if end < |buf| {
        SpanIsExact(buf, connect, at, spans, Port, end - 1);
        SpanIsExact(buf, connect, at, spans, Port, end);
        PortIsDigits(buf, connect, at, end - 1);
      }
    }
  }

  lemma {:induction false} CountPositive(ls: Labels, f: UrlField)
    ensures Count(ls, f) > 0 <==> exists i | 0 <= i < |ls| :: ls[i] == Some(f)
  {
    CountZero(ls, f);
    if Count(ls, f) > 0 {
      assert ls[First(ls, f)] == Some(f);
    }
  }

  lemma SpansTell(buf: seq<byte>, connect: bool, spans: map<UrlField, Span>)
    requires Spells(UrlLabels(buf, connect, |buf|), URL_FIELDS, spans)
    ensures Schema in spans <==> HasSchema(buf, connect)
    ensures Host in spans <==> HasServer(buf, connect)
  {
    hide After, Count, First, UrlLabels;
    var ls := UrlLabels(buf, connect, |buf|);
    assert Spelled(ls, Schema, spans) && Spelled(ls, Host, spans);
    CountPositive(ls, Schema);
    CountPositive(ls, Host);
    assert forall i: nat | i < |buf| ::
        (ls[i] == Some(Schema) <==> After(buf, connect, i).ReqSchema?) && (ls[i] == Some(Host) <==> ServerAt(buf, connect, i));
  }

  /** The result of http_parse_host says whether the server part is well formed. */
  lemma ServerIsGood(buf: seq<byte>, connect: bool, at: bool, a: nat, b: nat)
    requires a <= b <= |buf| && ServerIs(buf, connect, a, b)
    ensures a < b && HostAlive(buf, connect, at, b) && GoodEnd(HostAt(buf, connect, at, b - 1)) <==>
            HostAlive(buf, connect, at, |buf|) && ServerEndsWell(buf, connect, at)
  {
    hide After, HostAt, ServerAt, GoodEnd;
    forall i: nat | i < |buf| && ServerAt(buf, connect, i) ensures a <= i < b {
    }
    if a < b && GoodEnd(HostAt(buf, connect, at, b - 1)) {
      assert EndsAt(buf, connect, at, b - 1);
    }
    if ServerEndsWell(buf, connect, at) {
      var i: nat :| i < |buf| && EndsAt(buf, connect, at, i);
      assert i + 1 < |buf| ==> !(a <= i + 1 < b);
      assert i == b - 1;
      assert GoodEnd(HostAt(buf, connect, at, b - 1));
    }
  }

  ghost predicate PartsFit(buf: seq<byte>, connect: bool) {
    var at := HasAt(buf, connect, |buf|);
    && Alive(buf, connect, |buf|)
    && (HasSchema(buf, connect) || HasServer(buf, connect) ==>
          HostAlive(buf, connect, at, |buf|) && ServerEndsWell(buf, connect, at))
  }

  lemma ServerOf(buf: seq<byte>, connect: bool, spans: map<UrlField, Span>, a: nat, b: nat)
    requires Alive(buf, connect, |buf|) && Spells(UrlLabels(buf, connect, |buf|), URL_FIELDS, spans)
    requires a == (if Host in spans then spans[Host].off else 0)
    requires b == (if Host in spans then spans[Host].off + spans[Host].len else 0)
    ensures a <= b <= |buf| && ServerIs(buf, connect, a, b)
  {
    hide UrlLabels, First, Count, ServerAt, Alive;
    var ls := UrlLabels(buf, connect, |buf|);
    assert Spelled(ls, Host, spans);
    ServerIsSpan(buf, connect);
    SpansTell(buf, connect, spans);
    if Host !in spans {
      CountZero(ls, Host);
    }
  }

  /** The two passes of http_parser_parse_url. */
  method FindParts(buf: seq<byte>, connect: bool) returns (ok: bool, spans: map<UrlField, Span>)
    ensures ok <==> PartsFit(buf, connect)
    ensures ok ==> Spells(Owners(buf, connect, HasAt(buf, connect, |buf|), |buf|), ALL_FIELDS, spans)
    ensures ok && Port in spans ==> HostAlive(buf, connect, HasAt(buf, connect, |buf|), |buf|)
  {
    hide Alive, HasAt, Spells, HostAlive, HasSchema, HasServer, ServerEndsWell, UrlLabels, Owners, HostLabels, ServerIs;
    var found_at;
    ok, spans, found_at := FindFields(buf, connect);
    if !ok {
      return;
    }
    SpansTell(buf, connect, spans);
    ghost var n := |buf|;
    var a, b := 0, 0;
    if Host in spans {
      a, b := spans[Host].off, spans[Host].off + spans[Host].len;
    }
    ServerOf(buf, connect, spans, a, b);
    if Schema in spans || Host in spans {
      var more;
      ok, more := ParseHost(buf, connect, found_at, a, b);
      ServerIsGood(buf, connect, found_at, a, b);
      if !ok {
        return;
      }
      NoHostLater(buf, connect, found_at, a, b, n, more);
      PassesCombine(buf, connect, found_at, spans, more);
      spans := (spans - {Host}) + more;
    } else {
      NoHostYet(buf, connect, found_at, a, b, HostStart);
      NoHostLater(buf, connect, found_at, a, b, n, map[]);
      PassesCombine(buf, connect, found_at, spans, map[]);
      assert (spans - {Host}) + map[] == spans;
    }
  }

  /** http_parser_parse_url. */
  method ParseUrl(buf: seq<byte>, connect: bool) returns (r: Option<Fields>)
    ensures r.Some? ==> Accepts(buf, connect, r.value.spans) && r.value.port == PortOf(r.value.spans, buf)
    ensures r.None? ==> forall spans :: !Accepts(buf, connect, spans)
  {
    hide Alive, HasAt, Spells, HostAlive, HasSchema, HasServer, ServerEndsWell, Owners, PortOf;
    var ok, spans := FindParts(buf, connect);
    if !ok {
      return None;
    }
    forall more | Accepts(buf, connect, more) ensures more == spans {
      SpellsOnce(Owners(buf, connect, HasAt(buf, connect, |buf|), |buf|), spans, more);
    }
    if connect && spans.Keys != {Host, Port} {
      return None;
    }
    var port := 0;
    if Port in spans {
      PortSpan(buf, connect, HasAt(buf, connect, |buf|), spans);
      port := Strtoul(buf, spans[Port].off, spans[Port].off + spans[Port].len);
    }
    assert port == PortOf(spans, buf) by { PortIs(buf, spans, port); }
    if port > 0xffff {
      return None;
    }
    r := Some(Fields(spans, port));
  }

  lemma PortIs(buf: seq<byte>, spans: map<UrlField, Span>, port: int)
    requires Port !in spans ==> port == 0
    requires Port in spans ==>
               spans[Port].off + spans[Port].len <= |buf| &&
               port == Digits(buf, spans[Port].off, spans[Port].off + spans[Port].len)
    ensures port == PortOf(spans, buf)
  {
  }
}
