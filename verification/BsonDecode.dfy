/** The decoder of lua-bson as a function of the bytes, and that it undoes the encoder. */
module BsonDecode {
  import opened Common
  import opened BsonFormat

  // ---------- the reader ----------

  /** read_cstring: what precedes the first NUL, and what follows it. */
  function ReadCString(bs: Bytes): (r: Option<(Bytes, Bytes)>)
    ensures r.Some? ==> |r.value.0| + 1 + |r.value.1| == |bs| && bs == r.value.0 + [0] + r.value.1 && 0 !in r.value.0
  {
    if bs == [] then None
    else if bs[0] == 0 then Some(([], bs[1..]))
    else match ReadCString(bs[1..])
      case None => None
      case Some((s, rest)) => Some(([bs[0]] + s, rest))
  }

  /** read_bytes: the first n bytes and the rest. A negative length is an error here. */
  function ReadBytes(bs: Bytes, n: int): (r: Option<(Bytes, Bytes)>)
    ensures r.Some? ==> 0 <= n && |r.value.0| == n && bs == r.value.0 + r.value.1
  {
    if 0 <= n <= |bs| then Some((bs[..n], bs[n..])) else None
  }

  /** read_int32 followed by read_bytes, of that length and some more. */
  function ReadCounted(bs: Bytes, more: int): (r: Option<(Bytes, Bytes)>)
    ensures r.Some? ==> |r.value.1| < |bs| && |bs| >= 4 && |r.value.0| == Int32(bs[..4]) + more
    ensures r.Some? ==> bs == bs[..4] + r.value.0 + r.value.1
  {
    if |bs| < 4 then None else ReadBytes(bs[4..], Int32(bs[..4]) + more)
  }

  function KeyOf(isArray: bool, key: Bytes): Key {
    if isArray then Index(Signed((StrTol(key, 0) + 1) % TWO32, TWO32)) else Name(key)
  }

  /** Elements of a fixed size. */
  function FixedSize(t: byte): Option<nat> {
    if t == BSON_INT64 || t == BSON_TIMESTAMP || t == BSON_DATE || t == BSON_REAL then Some(8)
    else if t == BSON_BOOLEAN then Some(1)
    else if t == BSON_OBJECTID then Some(12)
    else if t == BSON_INT32 then Some(4)
    else None
  }

  function FixedValue(t: byte, b: Bytes): Value
    requires FixedSize(t) == Some(|b|)
  {
    if t == BSON_INT64 then UnLEBound(b); Int(Int64(b))
    else if t == BSON_TIMESTAMP then Str([0, t] + b)
    else if t == BSON_DATE then Str([0, t] + LE(DateSeconds(Int64(b)) % TWO32, 4))
    else if t == BSON_REAL then UnLEBound(b); Real(UnLE(b))
    else if t == BSON_BOOLEAN then Bool(b[0] != 0)
    else if t == BSON_OBJECTID then Str([0, t] + b)
    else UnLEBound(b); Int(Int32(b))
  }

  /** Division by 1000 in C, towards zero. */
  function DateSeconds(v: int): int {
    if v >= 0 then v / 1000 else -(-v / 1000)
  }

  lemma UnLEBound(b: Bytes)
    ensures |b| == 4 ==> UnLE(b) < TWO32
    ensures |b| == 8 ==> UnLE(b) < TWO64
  {
    Powers();
    LEOfUnLE(b);
  }

  // ---------- unpack_dict ----------

  /** The value of an element of type t, and the bytes behind it. */
  function ReadValue(t: byte, bs: Bytes): (r: Option<(Value, Bytes)>)
    ensures r.Some? ==> |r.value.1| <= |bs|
    decreases |bs|, 2
  {
    if FixedSize(t).Some? then
      match ReadBytes(bs, FixedSize(t).value)
      case None => None
      case Some((b, rest)) => Some((FixedValue(t, b), rest))
    else if t == BSON_STRING then
      match ReadCounted(bs, 0)
      case None => None
      case Some((b, rest)) => if b == [] then None else Some((Str(b[..|b|-1]), rest))
    else if t == BSON_DOCUMENT || t == BSON_ARRAY then ReadDocument(bs, t == BSON_ARRAY)
    else if t == BSON_BINARY then
      match ReadCounted(bs, 1)
      case None => None
      case Some((b, rest)) => if b == [] then None else Some((Str([0, t] + b), rest))
    else if IsKeyType(t) then Some((Str([0, t]), bs))
    else if t == BSON_REGEX then
      match ReadCString(bs)
      case None => None
      case Some((r1, rest1)) =>
        match ReadCString(rest1)
        case None => None
        case Some((r2, rest2)) => Some((Str([0, t] + r1 + [0] + r2 + [0]), rest2))
    else if t == BSON_DBPOINTER || t == BSON_JSCODE || t == BSON_SYMBOL || t == BSON_CODEWS then
      match ReadCounted(bs, if t == BSON_DBPOINTER then 12 else if t == BSON_CODEWS then -4 else 0)
      case None => None
      case Some((b, rest)) => Some((Str([0, t] + bs[..4] + b), rest))
    else None
  }

  function ReadDocument(bs: Bytes, isArray: bool): (r: Option<(Value, Bytes)>)
    ensures r.Some? ==> |r.value.1| < |bs| && r.value.0.Table?
    decreases |bs|, 1
  {
    match ReadCounted(bs, -5)
    case None => None
    case Some((body, rest)) =>
      if rest == [] || rest[0] != 0 then None
      else match ReadFields(body, isArray)
        case None => None
        case Some(fields) => Some((Table(isArray, fields), rest[1..]))
  }

  function ReadFields(bs: Bytes, isArray: bool): Option<seq<Field>>
    decreases |bs|, 0
  {
    if bs == [] then Some([])
    else match ReadCString(bs[1..])
      case None => None
      case Some((key, rest)) =>
        match ReadValue(bs[0], rest)
        case None => None
        case Some((v, rest')) =>
          match ReadFields(rest', isArray)
          case None => None
          case Some(fields) => Some([Field(KeyOf(isArray, key), v)] + fields)
  }

  // ---------- values that survive ----------

  /** Two strings, each with a NUL behind it. */
  predicate GoodRegex(data: Bytes) {
    exists k | 0 <= k < |data| - 1 :: data[k] == 0 && 0 !in data[..k] && data[|data|-1] == 0 && 0 !in data[k+1..|data|-1]
  }

  /** Strings with the right shape for the type in their second byte. */
  predicate GoodTagged(t: byte, data: Bytes) {
    if t == BSON_OBJECTID then |data| == 12
    else if t == BSON_DATE then |data| == 4
    else if t == BSON_TIMESTAMP then |data| == 8
    else if t == BSON_BINARY then 1 <= |data| <= TWO31
    else if IsKeyType(t) then data == []
    else if t == BSON_REGEX then GoodRegex(data)
    else if t == BSON_JSCODE || t == BSON_SYMBOL then |data| >= 4 && Int32(data[..4]) == |data| - 4
    else if t == BSON_CODEWS then |data| >= 4 && Int32(data[..4]) == |data|
    else t == BSON_DBPOINTER && |data| >= 16 && Int32(data[..4]) == |data| - 16
  }

  predicate GoodKey(isArray: bool, k: Key) {
    if isArray then k.Index? && 1 <= k.i < TWO31 else k.Name? && 0 !in k.s
  }

  /** Documents with names free of NUL, arrays counted from 1, strings not taken for something
      else, and well-formed tagged strings. */
  predicate Good(v: Value)
    decreases v
  {
    match v
    case Str(s) => (if IsTagged(s) then GoodTagged(s[1], s[2..]) else true) && |s| < TWO31 - 1
    case Table(isArray, fields) =>
      forall i | 0 <= i < |fields| :: GoodKey(isArray, fields[i].key) && Good(fields[i].value)
    case _ => true
  }

  // ---------- the round trip ----------

  lemma {:induction false} ReadCStringOf(s: Bytes, rest: Bytes)
    requires 0 !in s
    ensures ReadCString(s + [0] + rest) == Some((s, rest))
  {
    var bs := s + [0] + rest;
    if s == [] {
      assert bs[1..] == rest;
    } else {
      assert bs[1..] == s[1..] + [0] + rest;
      ReadCStringOf(s[1..], rest);
      assert s == [s[0]] + s[1..];
    }
  }

  lemma ReadCountedOf(n: int, data: Bytes, more: int, rest: Bytes)
    requires |data| == n + more && -TWO31 <= n < TWO31
    ensures ReadCounted(LE32(n) + data + rest, more) == Some((data, rest))
    ensures (LE32(n) + data + rest)[..4] == LE32(n)
  {
    var bs := LE32(n) + data + rest;
    assert bs[..4] == LE32(n) && bs[4..] == data + rest;
    assert (data + rest)[..|data|] == data && (data + rest)[|data|..] == rest;
    Int32RoundTrip(n);
  }

  lemma ReadFixedOf(t: byte, b: Bytes, rest: Bytes)
    requires FixedSize(t) == Some(|b|)
    ensures ReadValue(t, b + rest) == Some((FixedValue(t, b), rest))
  {
    assert (b + rest)[..|b|] == b && (b + rest)[|b|..] == rest;
  }

  lemma KeyReadsBack(isArray: bool, k: Key)
    requires GoodKey(isArray, k)
    ensures 0 !in KeyBytes(isArray, k) && KeyOf(isArray, KeyBytes(isArray, k)) == k
  {
    hide Decimal, StrTol;
    if isArray {
      DecimalReadsBack(k.i - 1);
    }
  }

  lemma DecimalReadsBack(n: nat)
    ensures StrTol(Decimal(n), 0) == n && 0 !in Decimal(n)
  {
    DecimalIsDigits(n);
    StrTolOfDecimal(n, []);
    hide Decimal;
    assert Decimal(n) + [] == Decimal(n);
  }

  lemma NumberReadsBack(v: Value, rest: Bytes)
    requires v.Int? || v.Real? || v.Bool?
    ensures ReadValue(TypeOf(v), Payload(v) + rest) == Some((v, rest))
  {
    hide LE, UnLE;
    ReadFixedOf(TypeOf(v), Payload(v), rest);
    if v.Int? {
      if Is32Bit(v.i) {
        Int32RoundTrip(v.i);
      } else {
        Int64RoundTrip(v.i);
      }
    } else if v.Real? {
      Powers();
      UnLEOfLE(v.bits, 8);
    }
  }

  lemma TextReadsBack(s: Bytes, rest: Bytes)
    requires |s| < TWO31 - 1
    ensures ReadValue(BSON_STRING, LE32(|s| + 1) + s + [0] + rest) == Some((Str(s), rest))
  {
    var data := s + [0];
    assert LE32(|s| + 1) + s + [0] + rest == LE32(|s| + 1) + data + rest;
    ReadCountedOf(|s| + 1, data, 0, rest);
    assert data[..|data|-1] == s;
  }

  lemma DateReadsBack(data: Bytes)
    requires |data| == 4
    ensures FixedValue(BSON_DATE, LE64(UnLE(data) * 1000)) == Str([0, BSON_DATE] + data)
  {
    hide LE, UnLE;
    UnLEBound(data);
    LEOfUnLE(data);
    Int64RoundTrip(UnLE(data) * 1000);
    assert DateSeconds(UnLE(data) * 1000) == UnLE(data);
  }

  lemma TimestampReadsBack(data: Bytes)
    requires |data| == 8
    ensures TaggedPayload(BSON_TIMESTAMP, data) == data
  {
    hide LE32, UnLE;
    LE32OfUnLE(data[..4]);
    LE32OfUnLE(data[4..]);
    assert data == data[..4] + data[4..];
  }

  lemma LE32OfUnLE(b: Bytes)
    requires |b| == 4
    ensures LE32(UnLE(b)) == b
  {
    UnLEBound(b);
    LEOfUnLE(b);
  }

  lemma RegexParts(data: Bytes) returns (r1: Bytes, r2: Bytes)
    requires GoodRegex(data)
    ensures data == r1 + [0] + r2 + [0] && 0 !in r1 && 0 !in r2 && data != [] && data[..|data|-1] + [0] == data
  {
    var k :| 0 <= k < |data| - 1 && data[k] == 0 && 0 !in data[..k] && data[|data|-1] == 0 && 0 !in data[k+1..|data|-1];
    r1, r2 := data[..k], data[k+1..|data|-1];
  }

  lemma RegexReadsBack(data: Bytes, rest: Bytes)
    requires GoodRegex(data)
    ensures ReadValue(BSON_REGEX, TaggedPayload(BSON_REGEX, data) + rest) == Some((Str([0, BSON_REGEX] + data), rest))
  {
    hide ReadValue, GoodRegex;
    var r1, r2 := RegexParts(data);
    TwoStringsReadBack(r1, r2, rest);
    assert [0, BSON_REGEX] + r1 + [0] + r2 + [0] == [0, BSON_REGEX] + (r1 + [0] + r2 + [0]);
  }

  lemma TwoStringsReadBack(r1: Bytes, r2: Bytes, rest: Bytes)
    requires 0 !in r1 && 0 !in r2
    ensures ReadValue(BSON_REGEX, r1 + [0] + r2 + [0] + rest) == Some((Str([0, BSON_REGEX] + r1 + [0] + r2 + [0]), rest))
  {
    hide ReadCString, ReadCounted, FixedValue;
    ReadCStringOf(r1, r2 + [0] + rest);
    ReadCStringOf(r2, rest);
    assert r1 + [0] + r2 + [0] + rest == r1 + [0] + (r2 + [0] + rest);
  }

  lemma CodeReadsBack(t: byte, data: Bytes, rest: Bytes)
    requires GoodTagged(t, data)
    requires t == BSON_JSCODE || t == BSON_SYMBOL || t == BSON_CODEWS || t == BSON_DBPOINTER
    ensures ReadValue(t, data + rest) == Some((Str([0, t] + data), rest))
  {
    var n, more := Int32(data[..4]), if t == BSON_DBPOINTER then 12 else if t == BSON_CODEWS then -4 else 0;
    var b := data[4..];
    var bs := data + rest;
    assert bs[..4] == data[..4] && bs[4..] == b + rest;
    assert (b + rest)[..|b|] == b && (b + rest)[|b|..] == rest;
    assert [0, t] + bs[..4] + b == [0, t] + data;
  }

  lemma BinaryReadsBack(data: Bytes, rest: Bytes)
    requires 1 <= |data| <= TWO31
    ensures ReadValue(BSON_BINARY, LE32(|data| - 1) + data + rest) == Some((Str([0, BSON_BINARY] + data), rest))
  {
    ReadCountedOf(|data| - 1, data, 1, rest);
  }

  lemma TaggedReadsBack(t: byte, data: Bytes, rest: Bytes)
    requires GoodTagged(t, data)
    ensures ReadValue(t, TaggedPayload(t, data) + rest) == Some((Str([0, t] + data), rest))
  {
    hide ReadCounted, LE, UnLE;
    if t == BSON_OBJECTID {
      ReadFixedOf(t, data, rest);
    } else if t == BSON_DATE {
      DateReadsBack(data);
      ReadFixedOf(t, LE64(UnLE(data) * 1000), rest);
    } else if t == BSON_TIMESTAMP {
      TimestampReadsBack(data);
      ReadFixedOf(t, data, rest);
    } else if t == BSON_BINARY {
      BinaryReadsBack(data, rest);
    } else if IsKeyType(t) {
      assert [0, t] + data == [0, t] && TaggedPayload(t, data) + rest == rest;
    } else if t == BSON_REGEX {
      RegexReadsBack(data, rest);
    } else {
      CodeReadsBack(t, data, rest);
    }
  }

  lemma ScalarReadsBack(v: Value, rest: Bytes)
    requires Good(v) && !v.Table?
    ensures ReadValue(TypeOf(v), Payload(v) + rest) == Some((v, rest))
  {
    hide ReadValue, TaggedPayload, LE32;
    if v.Str? && IsTagged(v.s) {
      TaggedReadsBack(v.s[1], v.s[2..], rest);
      assert [0, v.s[1]] + v.s[2..] == v.s;
    } else if v.Str? {
      TextReadsBack(v.s, rest);
    } else {
      NumberReadsBack(v, rest);
    }
  }

  lemma FramedReadsBack(body: Bytes, isArray: bool, fields: seq<Field>, rest: Bytes)
    requires |body| + 5 < TWO31 && ReadFields(body, isArray) == Some(fields)
    ensures ReadDocument(Framed(body) + rest, isArray) == Some((Table(isArray, fields), rest))
  {
    hide LE, LE32, ReadFields, ReadCounted;
    assert Framed(body) + rest == LE32(|body| + 5) + body + ([0] + rest);
    ReadCountedOf(|body| + 5, body, -5, [0] + rest);
    assert ([0] + rest)[1..] == rest;
  }

  /** Whatever the encoder writes for a good value, the decoder reads as that value, and it
      leaves what follows alone. */
  lemma {:induction false} ReadsBack(v: Value, rest: Bytes)
    requires Good(v) && |Payload(v)| < TWO31
    ensures ReadValue(TypeOf(v), Payload(v) + rest) == Some((v, rest))
    decreases v
  {
    hide Payload, LE32, Body, ReadFields;
    if v.Table? {
      var n := |v.fields|;
      FieldsReadBack(v, n, []);
      TablePayload(v);
      assert v.fields[..n] + [] == v.fields && Body(v, n) + [] == Body(v, n);
      assert ReadFields([], v.isArray) == Some([]) by { NoFields(v.isArray); }
      FramedReadsBack(Body(v, n), v.isArray, v.fields, rest);
    } else {
      ScalarReadsBack(v, rest);
    }
  }

  lemma NoFields(isArray: bool)
    ensures ReadFields([], isArray) == Some([])
  {
  }

  lemma TablePayload(v: Value)
    requires v.Table?
    ensures Payload(v) == Framed(Body(v, |v.fields|)) && |Payload(v)| == |Body(v, |v.fields|)| + 5
  {
  }

  lemma {:induction false} BodyGrows(v: Value, n: nat, m: nat)
    requires v.Table? && n <= m <= |v.fields|
    ensures |Body(v, n)| <= |Body(v, m)|
    decreases m
  {
    if n < m {
      BodyGrows(v, n, m - 1);
    }
  }

  function Prepended(fields: seq<Field>, more: Option<seq<Field>>): Option<seq<Field>> {
    match more
    case None => None
    case Some(fs) => Some(fields + fs)
  }

  /** The first n elements are read as the first n fields, and reading goes on behind them. */
  lemma {:induction false} FieldsReadBack(v: Value, n: nat, tail: Bytes)
    requires v.Table? && n <= |v.fields| && Good(v) && |Payload(v)| < TWO31
    ensures ReadFields(Body(v, n) + tail, v.isArray) == Prepended(v.fields[..n], ReadFields(tail, v.isArray))
    decreases v, n
  {
    hide Payload, LE32, ReadFields, ReadValue, TypeOf, Element, Prepended, GoodKey;
    if n == 0 {
      assert Body(v, 0) + tail == tail;
      NothingPrepended(ReadFields(tail, v.isArray));
    } else {
      var f := v.fields[n-1];
      ElementIsSmaller(v, n);
      ReadsBack(f.value, tail);
      ElementReadsBack(v.isArray, f, tail);
      FieldsReadBack(v, n - 1, Element(v.isArray, f) + tail);
      AppendAssociates(Body(v, n - 1), Element(v.isArray, f), tail);
      PrependedTwice(v.fields[..n-1], f, ReadFields(tail, v.isArray));
      assert v.fields[..n] == v.fields[..n-1] + [f];
    }
  }

  lemma ElementIsSmaller(v: Value, n: nat)
    requires v.Table? && 0 < n <= |v.fields|
    ensures |Payload(v.fields[n-1].value)| < |Payload(v)|
  {
    TablePayload(v);
    BodyGrows(v, n, |v.fields|);
  }

  lemma AppendAssociates(a: Bytes, b: Bytes, c: Bytes)
    ensures a + b + c == a + (b + c)
  {
  }

  lemma NothingPrepended(more: Option<seq<Field>>)
    ensures Prepended([], more) == more
  {
    if more.Some? {
      assert [] + more.value == more.value;
    }
  }

  lemma PrependedTwice(fields: seq<Field>, f: Field, more: Option<seq<Field>>)
    ensures Prepended(fields, Prepended([f], more)) == Prepended(fields + [f], more)
  {
    if more.Some? {
      assert fields + ([f] + more.value) == fields + [f] + more.value;
    }
  }

  lemma ElementReadsBack(isArray: bool, f: Field, tail: Bytes)
    requires GoodKey(isArray, f.key)
    requires ReadValue(TypeOf(f.value), Payload(f.value) + tail) == Some((f.value, tail))
    ensures ReadFields(Element(isArray, f) + tail, isArray) == Prepended([f], ReadFields(tail, isArray))
  {
    hide ReadValue, TypeOf, Payload;
    var key := KeyBytes(isArray, f.key);
    var bs := Element(isArray, f) + tail;
    KeyReadsBack(isArray, f.key);
    assert bs[1..] == key + [0] + (Payload(f.value) + tail);
    ReadCStringOf(key, Payload(f.value) + tail);
  }

  /** Decoding what was encoded gives back the document. */
  lemma RoundTrip(v: Value)
    requires Good(v) && v.Table? && !v.isArray && |Payload(v)| < TWO31
    ensures ReadDocument(Payload(v), false) == Some((v, []))
  {
    ReadsBack(v, []);
    assert Payload(v) + [] == Payload(v);
  }

  // ---------- good values are accepted ----------

  /** How deep tables are nested. */
  function Depth(v: Value): nat
    decreases v
  {
    if v.Table? then 1 + DepthUpTo(v, |v.fields|) else 0
  }

  function DepthUpTo(v: Value, n: nat): nat
    requires v.Table? && n <= |v.fields|
    decreases v, n
  {
    if n == 0 then 0
    else
      var d, e := DepthUpTo(v, n - 1), Depth(v.fields[n-1].value);
      if d < e then e else d
  }

  /** A good value is encoded unless its tables are nested too deep, and then an error is raised. */
  lemma {:induction false} GoodIsAccepted(v: Value, depth: nat)
    requires Good(v)
    ensures OutcomeOf(v, depth) == if !v.Table? || depth + Depth(v) <= 129 then Written else Rejected
    decreases v
  {
    if v.Table? && depth <= MAX_DEPTH {
      GoodFieldsAreAccepted(v, |v.fields|, depth);
    } else if v.Str? && IsTagged(v.s) && v.s[1] == BSON_REGEX {
      GoodRegexSplits(v.s[2..]);
    }
  }

  lemma {:induction false} GoodFieldsAreAccepted(v: Value, n: nat, depth: nat)
    requires v.Table? && n <= |v.fields| && Good(v) && depth <= MAX_DEPTH
    ensures OutcomeUpTo(v, n, depth) ==
              if DepthUpTo(v, n) == 0 || depth + 1 + DepthUpTo(v, n) <= MAX_DEPTH + 1 then Written else Rejected
    decreases v, n
  {
    if n > 0 {
      GoodFieldsAreAccepted(v, n - 1, depth);
      GoodIsAccepted(v.fields[n-1].value, depth + 1);
    }
  }

  lemma GoodRegexSplits(data: Bytes)
    requires GoodRegex(data)
    ensures Splits(data)
  {
    var r1, r2 := RegexParts(data);
    assert data[|r1|] == 0 && data[..|data|-1][|r1|] == 0;
  }
}
