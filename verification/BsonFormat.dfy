/** The BSON format of lua-bson: Lua values, and the bytes that encode them. */
module BsonFormat {
  import opened Common

  type Bytes = seq<byte>

  // ---------- numbers as bytes ----------

  const TWO31: int := 0x8000_0000
  const TWO32: nat := 0x1_0000_0000
  const TWO63: int := 0x8000_0000_0000_0000
  const TWO64: nat := 0x1_0000_0000_0000_0000

  /** The n low bytes of v, the lowest first. */
  function LE(v: nat, n: nat): (b: Bytes)
    ensures |b| == n
  {
    if n == 0 then [] else [v % 256] + LE(v / 256, n - 1)
  }

  function UnLE(b: Bytes): nat {
    if b == [] then 0 else b[0] + 256 * UnLE(b[1..])
  }

  function Pow256(n: nat): nat {
    if n == 0 then 1 else 256 * Pow256(n - 1)
  }

  lemma {:induction false} UnLEOfLE(v: nat, n: nat)
    requires v < Pow256(n)
    ensures UnLE(LE(v, n)) == v
    decreases n
  {
    if n > 0 {
      UnLEOfLE(v / 256, n - 1);
    }
  }

  lemma {:induction false} LEOfUnLE(b: Bytes)
    ensures LE(UnLE(b), |b|) == b && UnLE(b) < Pow256(|b|)
  {
    if b != [] {
      LEOfUnLE(b[1..]);
      assert UnLE(b) % 256 == b[0] && UnLE(b) / 256 == UnLE(b[1..]);
    }
  }

  lemma Powers()
    ensures Pow256(4) == TWO32 && Pow256(8) == TWO64
  {
    assert Pow256(1) == 256 && Pow256(2) == 0x1_0000 && Pow256(3) == 0x100_0000;
    assert Pow256(5) == 0x100_0000_0000 && Pow256(6) == 0x1_0000_0000_0000 && Pow256(7) == 0x100_0000_0000_0000;
  }

  /** A two's complement number of which m is the modulus. */
  function Signed(u: nat, m: nat): int {
    if u < m / 2 then u else u - m
  }

  function LE32(v: int): (b: Bytes)
    ensures |b| == 4
  {
    LE(v % TWO32, 4)
  }

  function LE64(v: int): (b: Bytes)
    ensures |b| == 8
  {
    LE(v % TWO64, 8)
  }

  function Int32(b: Bytes): int
    requires |b| == 4
  {
    Signed(UnLE(b), TWO32)
  }

  function Int64(b: Bytes): int
    requires |b| == 8
  {
    Signed(UnLE(b), TWO64)
  }

  lemma Int32RoundTrip(v: int)
    requires -TWO31 <= v < TWO31
    ensures Int32(LE32(v)) == v
  {
    Powers();
    UnLEOfLE(v % TWO32, 4);
  }

  lemma Int64RoundTrip(v: int)
    requires -TWO63 <= v < TWO63
    ensures Int64(LE64(v)) == v
  {
    Powers();
    UnLEOfLE(v % TWO64, 8);
  }

  // ---------- array keys ----------

  /** sprintf "%u". */
  function Decimal(n: nat): Bytes {
    (if n < 10 then [] else Decimal(n / 10)) + ['0' as int + n % 10]
  }

  predicate IsDigit(c: byte) { '0' as int <= c <= '9' as int }

  /** strtol, of the digits that a key begins with, after digits of value acc. */
  function StrTol(key: Bytes, acc: nat): nat {
    if key == [] || !IsDigit(key[0]) then acc
    else StrTol(key[1..], 10 * acc + key[0] - '0' as int)
  }

  lemma {:induction false} StrTolOfDecimal(n: nat, rest: Bytes)
    ensures StrTol(Decimal(n) + rest, 0) == StrTol(rest, n)
    decreases n
  {
    var d: Bytes := ['0' as int + n % 10];
    assert (d + rest)[1..] == rest;
    if n < 10 {
      assert Decimal(n) + rest == d + rest;
    } else {
      assert Decimal(n) + rest == Decimal(n / 10) + (d + rest);
      StrTolOfDecimal(n / 10, d + rest);
    }
  }

  lemma {:induction false} DecimalIsDigits(n: nat)
    ensures forall c | c in Decimal(n) :: IsDigit(c)
    decreases n
  {
    if n >= 10 {
      DecimalIsDigits(n / 10);
    }
  }

  // ---------- Lua values ----------

  type int64 = x: int | -TWO63 <= x < TWO63
  type word64 = x: nat | x < TWO64

  /** Keys and values as the encoder distinguishes them. A table is an array or a document, with
      its fields in the order in which lua_next visits them. Values that Lua has no type for are
      strings that begin with a NUL and the type of the BSON element. */
  datatype Key = Name(s: Bytes) | Index(i: int64)

  datatype Field = Field(key: Key, value: Value)

  datatype Value =
    | Int(i: int64)
    | Real(bits: word64)
    | Bool(b: bool)
    | Str(s: Bytes)
    | Table(isArray: bool, fields: seq<Field>)

  const BSON_REAL: byte := 1
  const BSON_STRING: byte := 2
  const BSON_DOCUMENT: byte := 3
  const BSON_ARRAY: byte := 4
  const BSON_BINARY: byte := 5
  const BSON_OBJECTID: byte := 7
  const BSON_BOOLEAN: byte := 8
  const BSON_DATE: byte := 9
  const BSON_NULL: byte := 10
  const BSON_REGEX: byte := 11
  const BSON_DBPOINTER: byte := 12
  const BSON_JSCODE: byte := 13
  const BSON_SYMBOL: byte := 14
  const BSON_CODEWS: byte := 15
  const BSON_INT32: byte := 16
  const BSON_TIMESTAMP: byte := 17
  const BSON_INT64: byte := 18
  const BSON_MAXKEY: byte := 127
  const BSON_MINKEY: byte := 255

  const MAX_DEPTH: nat := 128

  predicate IsTagged(s: Bytes) { |s| > 1 && s[0] == 0 }

  predicate Is32Bit(i: int) { -TWO31 <= i < TWO31 }

  predicate IsKeyType(t: byte) { t == BSON_MINKEY || t == BSON_MAXKEY || t == BSON_NULL }

  predicate IsRawType(t: byte) {
    t == BSON_OBJECTID || t == BSON_JSCODE || t == BSON_DBPOINTER || t == BSON_SYMBOL || t == BSON_CODEWS
  }

  /** The type byte that append_one writes. */
  function TypeOf(v: Value): byte {
    match v
    case Int(i) => if Is32Bit(i) then BSON_INT32 else BSON_INT64
    case Real(_) => BSON_REAL
    case Bool(_) => BSON_BOOLEAN
    case Str(s) => if IsTagged(s) then s[1] else BSON_STRING
    case Table(isArray, _) => if isArray then BSON_ARRAY else BSON_DOCUMENT
  }

  // ---------- what the encoder accepts ----------

  /** How encoding ends: all is written, an error is raised, or memory outside of the string is
      read. */
  datatype Outcome = Written | Rejected | Wild

  /** There is a NUL before the last byte: it ends the pattern, and what is behind it are the
      options. */
  predicate Splits(data: Bytes) { data != [] && 0 in data[..|data|-1] }

  /** What append_one makes of a string for something else. */
  function TaggedOutcome(t: byte, data: Bytes): Outcome {
    if t == BSON_REGEX then (if Splits(data) then Written else Wild)
    else if t == BSON_OBJECTID then (if |data| == 12 then Written else Rejected)
    else if t == BSON_DATE then (if |data| == 4 then Written else Rejected)
    else if t == BSON_TIMESTAMP then (if |data| == 8 then Written else Rejected)
    else if t == BSON_BINARY || IsRawType(t) || IsKeyType(t) then Written
    else Rejected
  }

  predicate AcceptsKey(isArray: bool, k: Key) { isArray ==> k.Index? }

  /** How pack_dict and append_one end for a value at the given depth. */
  function OutcomeOf(v: Value, depth: nat): Outcome
    decreases v
  {
    match v
    case Str(s) => if IsTagged(s) then TaggedOutcome(s[1], s[2..]) else Written
    case Table(_, fields) => if depth > MAX_DEPTH then Rejected else OutcomeUpTo(v, |fields|, depth)
    case _ => Written
  }

  /** The first n fields: the first one that is not written decides. */
  function OutcomeUpTo(v: Value, n: nat, depth: nat): Outcome
    requires v.Table? && n <= |v.fields|
    decreases v, n
  {
    if n == 0 then Written
    else
      var before, f := OutcomeUpTo(v, n - 1, depth), v.fields[n-1];
      if !before.Written? then before
      else if !AcceptsKey(v.isArray, f.key) then Rejected
      else OutcomeOf(f.value, depth + 1)
  }

  /** Every regular expression in v is two strings, the first of which has a NUL behind it. */
  predicate Terminated(v: Value)
    decreases v
  {
    match v
    case Str(s) => IsTagged(s) && s[1] == BSON_REGEX ==> Splits(s[2..])
    case Table(_, fields) => forall i | 0 <= i < |fields| :: Terminated(fields[i].value)
    case _ => true
  }

  /** Only a regular expression without that NUL leads the encoder astray, and it is never
      encoded. */
  lemma {:induction false} WrittenIfTerminated(v: Value, depth: nat)
    ensures Terminated(v) ==> !OutcomeOf(v, depth).Wild?
    ensures OutcomeOf(v, depth).Written? ==> Terminated(v)
    decreases v
  {
    if v.Table? && depth <= MAX_DEPTH {
      FieldsAreTerminated(v, |v.fields|, depth);
    }
  }

  lemma {:induction false} FieldsAreTerminated(v: Value, n: nat, depth: nat)
    requires v.Table? && n <= |v.fields|
    ensures Terminated(v) ==> !OutcomeUpTo(v, n, depth).Wild?
    ensures OutcomeUpTo(v, n, depth).Written? ==> forall i | 0 <= i < n :: Terminated(v.fields[i].value)
    decreases v, n
  {
    if n > 0 {
      FieldsAreTerminated(v, n - 1, depth);
      WrittenIfTerminated(v.fields[n-1].value, depth + 1);
    }
  }

  /** A pattern with the NUL behind it and no options string: the search finds nothing. */
  lemma PatternAlone(depth: nat)
    ensures OutcomeOf(Str([0, BSON_REGEX, 'a' as int, 'b' as int, 0]), depth) == Wild
    ensures OutcomeOf(Str([0, BSON_REGEX]), depth) == Wild
    ensures OutcomeOf(Str([0, BSON_REGEX, 'a' as int, 0, 'i' as int, 0]), depth) == Written
  {
    var alone: Bytes, both: Bytes := [0, BSON_REGEX, 'a' as int, 'b' as int, 0], [0, BSON_REGEX, 'a' as int, 0, 'i' as int, 0];
    assert alone[2..] == ['a' as int, 'b' as int, 0] && alone[2..][..2] == ['a' as int, 'b' as int];
    assert both[2..] == ['a' as int, 0, 'i' as int, 0] && both[2..][..3] == ['a' as int, 0, 'i' as int] && both[2..][..3][1] == 0;
  }

  // ---------- the bytes ----------

  function SignedDecimal(i: int): Bytes {
    if i < 0 then ['-' as int] + Decimal(-i) else Decimal(i)
  }

  /** The key of an element: an array counts from 0 and wraps as unsigned int does; a number in
      a document is converted to a string. */
  function KeyBytes(isArray: bool, k: Key): Bytes {
    match k
    case Name(s) => s
    case Index(i) => if isArray then Decimal((i - 1) % TWO32) else SignedDecimal(i)
  }

  function TaggedPayload(t: byte, data: Bytes): Bytes {
    if t == BSON_BINARY then LE32(|data| - 1) + data
    else if t == BSON_DATE then LE64(UnLE(data) * 1000)
    else if t == BSON_TIMESTAMP && |data| == 8 then LE32(UnLE(data[..4])) + LE32(UnLE(data[4..]))
    else if t == BSON_REGEX && data != [] then data[..|data|-1] + [0]
    else if IsKeyType(t) then []
    else data
  }

  function Payload(v: Value): Bytes
    decreases v
  {
    match v
    case Int(i) => if Is32Bit(i) then LE32(i) else LE64(i)
    case Real(bits) => LE(bits, 8)
    case Bool(b) => [if b then 1 else 0]
    case Str(s) => if IsTagged(s) then TaggedPayload(s[1], s[2..]) else LE32(|s| + 1) + s + [0]
    case Table(_, fields) => Framed(Body(v, |fields|))
  }

  /** A document: its length, which counts everything, the elements, and a NUL. */
  function Framed(body: Bytes): Bytes {
    LE32(|body| + 5) + body + [0]
  }

  function Element(isArray: bool, f: Field): Bytes
    decreases f
  {
    [TypeOf(f.value)] + KeyBytes(isArray, f.key) + [0] + Payload(f.value)
  }

  /** The first n elements. */
  function Body(v: Value, n: nat): Bytes
    requires v.Table? && n <= |v.fields|
    decreases v, n
  {
    if n == 0 then [] else Body(v, n - 1) + Element(v.isArray, v.fields[n-1])
  }
}
