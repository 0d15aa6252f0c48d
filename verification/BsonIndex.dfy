/** Updating an encoded document in place: the index of its elements of fixed size, and the
    replacement of their values. */
module BsonIndex {
  import opened Common
  import opened BsonFormat
  import opened BsonDecode
  import opened BsonReader

  // ---------- lmakeindex ----------

  /** How lmakeindex passes over a value: the bytes behind it. */
  function Skip(t: byte, bs: Bytes): (r: Option<Bytes>)
    ensures r.Some? ==> |r.value| <= |bs|
  {
    if FixedSize(t).Some? then
      match ReadBytes(bs, FixedSize(t).value)
      case None => None
      case Some((_, rest)) => Some(rest)
    else if t == BSON_JSCODE || t == BSON_SYMBOL || t == BSON_STRING then SkipCounted(bs, 0)
    else if t == BSON_CODEWS || t == BSON_ARRAY || t == BSON_DOCUMENT then SkipCounted(bs, -4)
    else if t == BSON_BINARY then SkipCounted(bs, 1)
    else if IsKeyType(t) then Some(bs)
    else if t == BSON_REGEX then
      match ReadCString(bs)
      case None => None
      case Some((_, rest)) => match ReadCString(rest) { case None => None case Some((_, rest2)) => Some(rest2) }
    else if t == BSON_DBPOINTER then SkipCounted(bs, 12)
    else None
  }

  function SkipCounted(bs: Bytes, more: int): (r: Option<Bytes>)
    ensures r.Some? ==> |r.value| <= |bs|
  {
    match ReadCounted(bs, more)
    case None => None
    case Some((_, rest)) => Some(rest)
  }

  /** An indexed element: its key, its type, and where its value is. */
  datatype Entry = Entry(key: Bytes, t: byte, offset: nat)

  /** The elements of bs, which begins at the given offset, that are indexed, in their order. */
  function Entries(bs: Bytes, offset: nat): Option<seq<Entry>>
    decreases |bs|
  {
    if bs == [] then Some([])
    else
      var key := ReadCString(bs[1..]);
      if key.None? then None
      else
        var value := key.value.1;
        var behind := Skip(bs[0], value);
        if behind.None? then None
        else
          var more := Entries(behind.value, offset + |bs| - |behind.value|);
          if more.None? then None
          else if FixedSize(bs[0]).None? then more
          else Some([Entry(key.value.0, bs[0], offset + |bs| - |value|)] + more.value)
  }

  /** What unpack_dict reads as a value, lmakeindex passes over. */
  lemma SkipAgrees(t: byte, bs: Bytes)
    requires ReadValue(t, bs).Some?
    ensures Skip(t, bs) == Some(ReadValue(t, bs).value.1)
  {
    hide FixedValue, LE, UnLE;
    if t == BSON_DOCUMENT || t == BSON_ARRAY {
      DocumentIsCounted(bs, t == BSON_ARRAY);
    }
  }

  /** A document is skipped by its length. */
  lemma DocumentIsCounted(bs: Bytes, isArray: bool)
    requires ReadDocument(bs, isArray).Some?
    ensures SkipCounted(bs, -4) == Some(ReadDocument(bs, isArray).value.1)
  {
    hide ReadFields;
    var r := ReadCounted(bs, -5).value;
    assert bs[4..] == r.0 + r.1;
    assert bs[4..][|r.0| + 1..] == r.1[1..];
  }

  // ---------- reading looks no further than the value ----------

  lemma CountedIsLocal(bs: Bytes, more: int, other: Bytes)
    requires ReadCounted(bs, more).Some?
    ensures var (b, rest) := ReadCounted(bs, more).value;
            var head := bs[..4] + b;
            bs == head + rest && ReadCounted(head + other, more) == Some((b, other)) && (head + other)[..4] == bs[..4]
  {
    var (b, rest) := ReadCounted(bs, more).value;
    var head := bs[..4] + b;
    assert (head + other)[..4] == bs[..4] && (head + other)[4..] == b + other;
    assert (b + other)[..|b|] == b && (b + other)[|b|..] == other;
  }

  lemma FixedIsLocal(t: byte, bs: Bytes, other: Bytes)
    requires FixedSize(t).Some? && |bs| >= FixedSize(t).value
    ensures var b := bs[..FixedSize(t).value]; ReadValue(t, b + other) == Some((FixedValue(t, b), other))
  {
    ReadFixedOf(t, bs[..FixedSize(t).value], other);
  }

  /** The bytes of a value decide what is read, whatever follows them. */
  ghost predicate IsLocal(t: byte, bs: Bytes, other: Bytes)
    requires ReadValue(t, bs).Some?
  {
    var (v, rest) := ReadValue(t, bs).value;
    var b := bs[..|bs| - |rest|];
    bs == b + rest && ReadValue(t, b + other) == Some((v, other))
  }

  lemma DocumentIsLocal(bs: Bytes, isArray: bool, other: Bytes)
    requires ReadDocument(bs, isArray).Some?
    ensures var (v, rest) := ReadDocument(bs, isArray).value;
            var b := bs[..|bs| - |rest|];
            bs == b + rest && ReadDocument(b + other, isArray) == Some((v, other))
  {
    hide ReadFields, LE, UnLE;
    var (body, end) := ReadCounted(bs, -5).value;
    CountedIsLocal(bs, -5, [0] + other);
    var b := bs[..4] + body + [0];
    assert end == [0] + end[1..];
    assert bs == b + end[1..];
    assert b + other == bs[..4] + body + ([0] + other);
    assert ([0] + other)[1..] == other;
  }

  lemma RegexIsLocal(bs: Bytes, other: Bytes)
    requires ReadValue(BSON_REGEX, bs).Some?
    ensures IsLocal(BSON_REGEX, bs, other)
  {
    var (r1, rest1) := ReadCString(bs).value;
    var (r2, rest2) := ReadCString(rest1).value;
    assert bs == r1 + [0] + r2 + [0] + rest2;
    assert bs[..|bs| - |rest2|] == r1 + [0] + r2 + [0];
    TwoStringsReadBack(r1, r2, other);
  }

  /** How many bytes the value of a counted type has besides those that its length says. */
  function More(t: byte): int {
    if t == BSON_BINARY then 1 else if t == BSON_DBPOINTER then 12 else if t == BSON_CODEWS then -4 else 0
  }

  predicate IsCountedType(t: byte) {
    t == BSON_STRING || t == BSON_BINARY || t == BSON_JSCODE || t == BSON_SYMBOL || t == BSON_DBPOINTER || t == BSON_CODEWS
  }

  /** What a counted type makes of the bytes of its length and those behind it. */
  function CountedValue(t: byte, head: Bytes, b: Bytes): Option<Value> {
    if t == BSON_STRING then (if b == [] then None else Some(Str(b[..|b|-1])))
    else if t == BSON_BINARY then (if b == [] then None else Some(Str([0, t] + b)))
    else Some(Str([0, t] + head + b))
  }

  lemma CountedIsRead(t: byte, bs: Bytes)
    requires IsCountedType(t)
    ensures var r := ReadCounted(bs, More(t));
            if r.None? || CountedValue(t, bs[..4], r.value.0).None? then ReadValue(t, bs).None?
            else ReadValue(t, bs) == Some((CountedValue(t, bs[..4], r.value.0).value, r.value.1))
  {
    hide ReadCounted, ReadDocument, ReadCString, FixedValue;
  }

  lemma CountedValueIsLocal(t: byte, bs: Bytes, other: Bytes)
    requires ReadValue(t, bs).Some? && IsCountedType(t)
    ensures IsLocal(t, bs, other)
  {
    hide ReadCounted, ReadValue, CountedValue, More;
    CountedIsRead(t, bs);
    var (b, rest) := ReadCounted(bs, More(t)).value;
    var head := bs[..4] + b;
    CountedIsLocal(bs, More(t), other);
    CountedIsRead(t, head + other);
    assert bs[..|bs| - |rest|] == head;
  }

  lemma ValueIsLocal(t: byte, bs: Bytes, other: Bytes)
    requires ReadValue(t, bs).Some?
    ensures IsLocal(t, bs, other)
  {
    if FixedSize(t).Some? {
      FixedIsLocal(t, bs, other);
    } else if t == BSON_DOCUMENT || t == BSON_ARRAY {
      DocumentIsLocal(bs, t == BSON_ARRAY, other);
    } else if IsKeyType(t) {
      assert bs[..0] + other == other;
    } else if t == BSON_REGEX {
      RegexIsLocal(bs, other);
    } else {
      CountedValueIsLocal(t, bs, other);
    }
    hide ReadCounted, FixedValue, ReadCString;
  }

  // ---------- replacing a value ----------

  function Patch(bs: Bytes, at: int, b: Bytes): Bytes
    requires 0 <= at <= at + |b| <= |bs|
  {
    bs[..at] + b + bs[at + |b|..]
  }

  /** The first element: its type, key and value v, which takes the bytes val, and the rest. */
  datatype First = First(t: byte, key: Bytes, v: Value, val: Bytes, rest: Bytes)

  function Head(f: First): Bytes { [f.t] + f.key + [0] + f.val }

  ghost predicate Starts(bs: Bytes, isArray: bool, f: First) {
    && bs == Head(f) + f.rest && 0 !in f.key
    && ReadValue(f.t, f.val + f.rest) == Some((f.v, f.rest))
    && ReadFields(bs, isArray) == Prepended([Field(KeyOf(isArray, f.key), f.v)], ReadFields(f.rest, isArray))
  }

  lemma FirstElement(bs: Bytes, isArray: bool) returns (f: First)
    requires bs != [] && ReadFields(bs, isArray).Some?
    ensures Starts(bs, isArray, f) && ReadFields(f.rest, isArray).Some?
    ensures bs[0] == f.t && ReadCString(bs[1..]) == Some((f.key, f.val + f.rest)) && |f.rest| < |bs|
    ensures Skip(f.t, f.val + f.rest) == Some(f.rest)
  {
    hide ReadFields, ReadValue, Skip, KeyOf, ReadCString, Prepended;
    ReadFieldsUnfold(bs, isArray);
    PrependedSome(bs, isArray);
    var value := ReadCString(bs[1..]).value.1;
    f := SplitValue(bs[0], ReadCString(bs[1..]).value.0, value);
    SkipAgrees(bs[0], value);
    AppendAssociates([f.t] + f.key + [0], f.val, f.rest);
    assert bs == [bs[0]] + bs[1..];
    assert bs == [f.t] + f.key + [0] + value;
  }

  lemma PrependedSome(bs: Bytes, isArray: bool)
    requires bs != [] && ReadFields(bs, isArray).Some?
    ensures var c := ReadCString(bs[1..]);
            c.Some? && ReadValue(bs[0], c.value.1).Some? && ReadFields(ReadValue(bs[0], c.value.1).value.1, isArray).Some?
  {
    ReadFieldsUnfold(bs, isArray);
  }

  lemma SplitValue(t: byte, key: Bytes, value: Bytes) returns (f: First)
    requires ReadValue(t, value).Some?
    ensures f.t == t && f.key == key && value == f.val + f.rest && ReadValue(t, value) == Some((f.v, f.rest))
  {
    ValueIsLocal(t, value, []);
    hide ReadValue;
    var (v, rest) := ReadValue(t, value).value;
    f := First(t, key, v, value[..|value| - |rest|], rest);
  }

  /** An element is read in the same way whatever comes behind it. */
  lemma OtherRest(bs: Bytes, isArray: bool, f: First, val: Bytes, v: Value, rest: Bytes)
    requires Starts(bs, isArray, f) && ReadValue(f.t, val + rest) == Some((v, rest))
    ensures ReadFields(Head(f.(val := val)) + rest, isArray) ==
              Prepended([Field(KeyOf(isArray, f.key), v)], ReadFields(rest, isArray))
  {
    hide ReadFields, ReadValue, KeyOf;
    var more := Head(f.(val := val)) + rest;
    assert more[1..] == f.key + [0] + (val + rest);
    ReadCStringOf(f.key, val + rest);
    ReadFieldsUnfold(more, isArray);
  }

  /** The index has an entry for the element, and writing other bytes over the value of the
      element changes the value of field k and nothing else. */
  ghost predicate Replaceable(bs: Bytes, isArray: bool, offset: nat, e: Entry, k: nat) {
    && ReadFields(bs, isArray).Some? && k < |ReadFields(bs, isArray).value|
    && FixedSize(e.t).Some? && offset <= e.offset && e.offset - offset + FixedSize(e.t).value <= |bs|
    && ReadFields(bs, isArray).value[k].key == KeyOf(isArray, e.key)
    && forall b: Bytes | |b| == FixedSize(e.t).value :: ReplacesTo(bs, isArray, e.offset - offset, e.t, k, b)
  }

  ghost predicate ReplacesTo(bs: Bytes, isArray: bool, at: nat, t: byte, k: nat, b: Bytes)
    requires ReadFields(bs, isArray).Some? && k < |ReadFields(bs, isArray).value|
    requires FixedSize(t) == Some(|b|) && at + |b| <= |bs|
  {
    var fields := ReadFields(bs, isArray).value;
    ReadFields(Patch(bs, at, b), isArray) == Some(fields[k := Field(fields[k].key, FixedValue(t, b))])
  }

  lemma ReplaceFirst(bs: Bytes, isArray: bool, f: First, b: Bytes)
    requires Starts(bs, isArray, f) && ReadFields(f.rest, isArray).Some? && FixedSize(f.t) == Some(|b|)
    ensures ReadFields(bs, isArray).Some? && ReadFields(bs, isArray).value != [] && |f.val| == |b|
    ensures ReplacesTo(bs, isArray, |Head(f)| - |b|, f.t, 0, b)
  {
    FixedRest(f.t, f.val + f.rest);
    hide ReadFields, ReadValue, KeyOf, FixedSize, FixedValue;
    assert Patch(bs, |Head(f)| - |b|, b) == Head(f.(val := b)) + f.rest;
    ReadFixedOf(f.t, b, f.rest);
    OtherRest(bs, isArray, f, b, FixedValue(f.t, b), f.rest);
    UpdateFront(Field(KeyOf(isArray, f.key), f.v), ReadFields(f.rest, isArray).value, b, f.t);
  }

  lemma UpdateFront(f: Field, fields: seq<Field>, b: Bytes, t: byte)
    requires FixedSize(t) == Some(|b|)
    ensures ([f] + fields)[0 := Field(([f] + fields)[0].key, FixedValue(t, b))] ==
            [Field(f.key, FixedValue(t, b))] + fields
  {
    hide FixedValue, FixedSize;
  }

  lemma FixedRest(t: byte, value: Bytes)
    requires FixedSize(t).Some? && ReadValue(t, value).Some?
    ensures |value| == FixedSize(t).value + |ReadValue(t, value).value.1|
  {
  }

  lemma ReplaceLater(bs: Bytes, isArray: bool, f: First, at: nat, t: byte, k: nat, b: Bytes)
    requires Starts(bs, isArray, f) && ReadFields(f.rest, isArray).Some? && k < |ReadFields(f.rest, isArray).value|
    requires FixedSize(t) == Some(|b|) && at + |b| <= |f.rest| && ReplacesTo(f.rest, isArray, at, t, k, b)
    ensures ReadFields(bs, isArray).Some? && k + 1 < |ReadFields(bs, isArray).value|
    ensures ReplacesTo(bs, isArray, |Head(f)| + at, t, k + 1, b)
  {
    hide ReadFields, ReadValue, KeyOf, FixedSize, FixedValue, Head;
    PatchedLater(bs, isArray, f, at, b);
    UpdateBehind(Field(KeyOf(isArray, f.key), f.v), ReadFields(f.rest, isArray).value, k, b, t);
  }

  /** Writing behind the first element leaves it alone. */
  lemma PatchedLater(bs: Bytes, isArray: bool, f: First, at: nat, b: Bytes)
    requires Starts(bs, isArray, f) && at + |b| <= |f.rest|
    ensures |Head(f)| + at + |b| <= |bs|
    ensures ReadFields(Patch(bs, |Head(f)| + at, b), isArray) ==
              Prepended([Field(KeyOf(isArray, f.key), f.v)], ReadFields(Patch(f.rest, at, b), isArray))
  {
    hide ReadFields, ReadValue, KeyOf, Head, Patch, Prepended;
    FirstIsLocal(bs, isArray, f, Patch(f.rest, at, b));
    OtherRest(bs, isArray, f, f.val, f.v, Patch(f.rest, at, b));
    PatchBehind(Head(f), f.rest, at, b);
  }

  lemma FirstIsLocal(bs: Bytes, isArray: bool, f: First, rest: Bytes)
    requires Starts(bs, isArray, f)
    ensures ReadValue(f.t, f.val + rest) == Some((f.v, rest)) && f.(val := f.val) == f
  {
    hide ReadFields, ReadValue, KeyOf, Head, Prepended;
    ValueIsLocal(f.t, f.val + f.rest, rest);
    Halves(f.val, f.rest);
  }

  lemma Halves(a: Bytes, b: Bytes)
    ensures (a + b)[..|a|] == a && (a + b)[|a|..] == b
  {
  }

  lemma UpdateBehind(f: Field, fields: seq<Field>, k: nat, b: Bytes, t: byte)
    requires k < |fields| && FixedSize(t) == Some(|b|)
    ensures ([f] + fields)[k + 1 := Field(([f] + fields)[k + 1].key, FixedValue(t, b))] ==
            [f] + fields[k := Field(fields[k].key, FixedValue(t, b))]
  {
    hide FixedValue, FixedSize;
  }

  lemma PatchBehind(head: Bytes, rest: Bytes, at: nat, b: Bytes)
    requires at + |b| <= |rest|
    ensures Patch(head + rest, |head| + at, b) == head + Patch(rest, at, b)
  {
  }

  /** Every entry of the index of a document that can be decoded stands for a field. */
  lemma {:induction false} EntriesAreFields(bs: Bytes, isArray: bool, offset: nat, e: Entry) returns (k: nat)
    requires ReadFields(bs, isArray).Some? && Entries(bs, offset).Some? && e in Entries(bs, offset).value
    ensures Replaceable(bs, isArray, offset, e, k)
    decreases |bs|
  {
    hide Starts, ReadFields, ReadValue, Skip, ReplacesTo, KeyOf, FixedSize, ReadCString, Replaceable;
    var f := FirstElement(bs, isArray);
    if FixedSize(f.t).Some? && e == Entry(f.key, f.t, offset + |bs| - |f.val + f.rest|) {
      k := 0;
      FirstIsReplaceable(bs, isArray, offset, f, e);
    } else {
      EntriesGoOn(bs, isArray, offset, f, e);
      var later := EntriesAreFields(f.rest, isArray, offset + |bs| - |f.rest|, e);
      k := later + 1;
      LaterIsReplaceable(bs, isArray, offset, f, e, later);
    }
  }

  lemma EntriesGoOn(bs: Bytes, isArray: bool, offset: nat, f: First, e: Entry)
    requires bs != [] && bs[0] == f.t && ReadCString(bs[1..]) == Some((f.key, f.val + f.rest))
    requires Skip(f.t, f.val + f.rest) == Some(f.rest) && |f.rest| < |bs|
    requires Entries(bs, offset).Some? && e in Entries(bs, offset).value
    requires FixedSize(f.t).Some? ==> e != Entry(f.key, f.t, offset + |bs| - |f.val + f.rest|)
    ensures Entries(f.rest, offset + |bs| - |f.rest|).Some?
    ensures e in Entries(f.rest, offset + |bs| - |f.rest|).value
  {
    hide Skip, FixedSize, ReadCString;
  }

  lemma FirstField(bs: Bytes, isArray: bool, f: First)
    requires Starts(bs, isArray, f) && ReadFields(f.rest, isArray).Some? && FixedSize(f.t).Some?
    ensures ReadFields(bs, isArray).Some? && ReadFields(bs, isArray).value != []
    ensures ReadFields(bs, isArray).value[0].key == KeyOf(isArray, f.key)
    ensures |f.val| == FixedSize(f.t).value && |bs| == |Head(f)| + |f.rest|
  {
    FixedRest(f.t, f.val + f.rest);
    hide ReadFields, ReadValue, KeyOf, FixedSize;
  }

  lemma FirstIsReplaceable(bs: Bytes, isArray: bool, offset: nat, f: First, e: Entry)
    requires Starts(bs, isArray, f) && ReadFields(f.rest, isArray).Some? && FixedSize(f.t).Some?
    requires e == Entry(f.key, f.t, offset + |bs| - |f.val + f.rest|)
    ensures Replaceable(bs, isArray, offset, e, 0)
  {
    hide ReadFields, ReadValue, ReplacesTo, KeyOf, FixedSize, Prepended;
    FirstField(bs, isArray, f);
    hide Starts;
    forall b: Bytes | |b| == FixedSize(e.t).value ensures ReplacesTo(bs, isArray, e.offset - offset, e.t, 0, b) {
      ReplaceFirst(bs, isArray, f, b);
    }
  }

  lemma LaterIsReplaceable(bs: Bytes, isArray: bool, offset: nat, f: First, e: Entry, k: nat)
    requires Starts(bs, isArray, f) && Replaceable(f.rest, isArray, offset + |bs| - |f.rest|, e, k)
    ensures Replaceable(bs, isArray, offset, e, k + 1)
  {
    hide ReadFields, ReadValue, ReplacesTo, KeyOf, FixedSize, Head;
    var at := e.offset - offset - |Head(f)|;
    forall b: Bytes | |b| == FixedSize(e.t).value ensures ReplacesTo(bs, isArray, e.offset - offset, e.t, k + 1, b) {
      assert ReplacesTo(f.rest, isArray, at, e.t, k, b);
      ReplaceLater(bs, isArray, f, at, e.t, k, b);
    }
  }

  /** All elements that unpack_dict reads from bs, which begins at the given offset. */
  function Elements(bs: Bytes, offset: nat): seq<Entry>
    decreases |bs|
  {
    if bs == [] then []
    else match ReadCString(bs[1..])
      case None => []
      case Some((key, value)) =>
        [Entry(key, bs[0], offset + |bs| - |value|)] +
        match ReadValue(bs[0], value)
        case None => []
        case Some((_, rest)) => Elements(rest, offset + |bs| - |rest|)
  }

  function OfFixedSize(es: seq<Entry>): seq<Entry> {
    if es == [] then [] else (if FixedSize(es[0].t).Some? then [es[0]] else []) + OfFixedSize(es[1..])
  }

  /** Field f has the key of the element, and its value is what is read at the place and with the
      type of the element. */
  ghost predicate IsElement(bs: Bytes, isArray: bool, offset: nat, e: Entry, f: Field) {
    && f.key == KeyOf(isArray, e.key) && 0 <= e.offset - offset <= |bs|
    && ReadValue(e.t, bs[e.offset - offset..]).Some? && ReadValue(e.t, bs[e.offset - offset..]).value.0 == f.value
  }

  ghost predicate ElementsAre(bs: Bytes, isArray: bool, offset: nat, es: seq<Entry>, fields: seq<Field>) {
    |es| == |fields| && forall i | 0 <= i < |es| :: IsElement(bs, isArray, offset, es[i], fields[i])
  }

  lemma ElementsUnfold(bs: Bytes, isArray: bool, offset: nat, f: First)
    requires Starts(bs, isArray, f) && bs != [] && bs[0] == f.t
    requires ReadCString(bs[1..]) == Some((f.key, f.val + f.rest))
    ensures |f.rest| <= |bs|
    ensures Elements(bs, offset) ==
              [Entry(f.key, f.t, offset + |bs| - |f.val + f.rest|)] + Elements(f.rest, offset + |bs| - |f.rest|)
  {
    hide ReadCString, ReadFields, KeyOf;
  }

  lemma FirstIsElement(bs: Bytes, isArray: bool, offset: nat, f: First)
    requires Starts(bs, isArray, f)
    ensures |f.val + f.rest| <= |bs|
    ensures IsElement(bs, isArray, offset, Entry(f.key, f.t, offset + |bs| - |f.val + f.rest|), Field(KeyOf(isArray, f.key), f.v))
  {
    hide ReadValue, ReadFields, KeyOf;
    assert bs == [f.t] + f.key + [0] + (f.val + f.rest);
    Halves([f.t] + f.key + [0], f.val + f.rest);
  }

  lemma LaterIsElement(bs: Bytes, isArray: bool, offset: nat, first: First, e: Entry, f: Field)
    requires Starts(bs, isArray, first) && |first.rest| <= |bs|
    requires IsElement(first.rest, isArray, offset + |bs| - |first.rest|, e, f)
    ensures IsElement(bs, isArray, offset, e, f)
  {
    hide ReadValue, ReadFields, KeyOf, Head;
    var n := |Head(first)|;
    Halves(Head(first), first.rest);
    assert bs[e.offset - offset..] == bs[n..][e.offset - offset - n..];
  }

  lemma FixedUnfold(e: Entry, es: seq<Entry>)
    ensures OfFixedSize([e] + es) == if FixedSize(e.t).Some? then [e] + OfFixedSize(es) else OfFixedSize(es)
  {
    assert ([e] + es)[1..] == es;
  }

  /** A document that can be decoded can be indexed. The entries are those of its elements that
      have a fixed size; the elements stand for the fields, in their order. */
  lemma {:induction false} FieldsAreIndexed(bs: Bytes, isArray: bool, offset: nat)
    requires ReadFields(bs, isArray).Some?
    ensures ElementsAre(bs, isArray, offset, Elements(bs, offset), ReadFields(bs, isArray).value)
    ensures Entries(bs, offset) == Some(OfFixedSize(Elements(bs, offset)))
    decreases |bs|
  {
    hide KeyOf, FixedSize, ReadCString, Skip, ReadFields, ReadValue, Entries, Elements, OfFixedSize, Starts, IsElement;
    if bs != [] {
      var f := FirstElement(bs, isArray);
      var offset' := offset + |bs| - |f.rest|;
      FieldsAreIndexed(f.rest, isArray, offset');
      EntriesUnfold(bs, offset);
      ElementsUnfold(bs, isArray, offset, f);
      FixedUnfold(Entry(f.key, f.t, offset + |bs| - |f.val + f.rest|), Elements(f.rest, offset'));
      FirstIsElement(bs, isArray, offset, f);
      FirstAndLater(bs, isArray, offset, f);
    } else {
      NoFields(isArray);
      EntriesOfNothing(offset);
      ElementsOfNothing(offset);
    }
  }

  lemma FirstAndLater(bs: Bytes, isArray: bool, offset: nat, f: First)
    requires Starts(bs, isArray, f) && ReadFields(f.rest, isArray).Some? && |f.val + f.rest| <= |bs|
    requires var es := Elements(f.rest, offset + |bs| - |f.rest|);
             && ElementsAre(f.rest, isArray, offset + |bs| - |f.rest|, es, ReadFields(f.rest, isArray).value)
             && Elements(bs, offset) == [Entry(f.key, f.t, offset + |bs| - |f.val + f.rest|)] + es
    requires IsElement(bs, isArray, offset, Elements(bs, offset)[0], Field(KeyOf(isArray, f.key), f.v))
    ensures ReadFields(bs, isArray).Some?
    ensures ElementsAre(bs, isArray, offset, Elements(bs, offset), ReadFields(bs, isArray).value)
  {
    StartsWithField(bs, isArray, f);
    hide KeyOf, ReadFields, ReadValue, Elements, Starts, IsElement;
    var es, later, fields := Elements(bs, offset), Elements(f.rest, offset + |bs| - |f.rest|), ReadFields(bs, isArray).value;
    forall i | 0 < i < |es| ensures IsElement(bs, isArray, offset, es[i], fields[i]) {
      assert IsElement(f.rest, isArray, offset + |bs| - |f.rest|, later[i-1], ReadFields(f.rest, isArray).value[i-1]);
      LaterIsElement(bs, isArray, offset, f, es[i], fields[i]);
    }
  }

  lemma StartsWithField(bs: Bytes, isArray: bool, f: First)
    requires Starts(bs, isArray, f) && ReadFields(f.rest, isArray).Some?
    ensures ReadFields(bs, isArray) == Some([Field(KeyOf(isArray, f.key), f.v)] + ReadFields(f.rest, isArray).value)
  {
    hide ReadFields, KeyOf, ReadValue;
  }

  lemma ElementsOfNothing(offset: nat)
    ensures Elements([], offset) == [] && OfFixedSize([]) == []
  {
  }

  lemma {:induction false} FixedMembers(es: seq<Entry>, e: Entry)
    ensures e in OfFixedSize(es) <==> e in es && FixedSize(e.t).Some?
  {
    if es != [] {
      assert es == [es[0]] + es[1..];
      FixedMembers(es[1..], e);
    }
  }

  /** A key is in the index of a document that can be decoded if and only if an element of a fixed
      size has it. */
  lemma IndexedExactly(bs: Bytes, isArray: bool, offset: nat, key: Bytes)
    requires ReadFields(bs, isArray).Some?
    ensures Entries(bs, offset).Some?
    ensures key in Index(Entries(bs, offset).value) <==>
              exists e | e in Elements(bs, offset) :: e.key == key && FixedSize(e.t).Some?
  {
    hide FixedSize, ReadFields, Entries, Elements, OfFixedSize, Index, ElementsAre;
    FieldsAreIndexed(bs, isArray, offset);
    var es := Elements(bs, offset);
    IndexIsFromEntries(OfFixedSize(es), key);
    forall e | e in es || e in OfFixedSize(es) ensures e in OfFixedSize(es) <==> e in es && FixedSize(e.t).Some? {
      FixedMembers(es, e);
    }
  }

  // ---------- the index table ----------

  /** How an entry is packed into one number, with BSON_TYPE_SHIFT bits for the type. */
  function Id(e: Entry): nat { e.t + 32 * e.offset }

  /** The table of lmakeindex: a later entry replaces an earlier one with the same key. */
  function Index(entries: seq<Entry>): map<Bytes, nat> {
    if entries == [] then map[]
    else Index(entries[..|entries|-1])[entries[|entries|-1].key := Id(entries[|entries|-1])]
  }

  lemma {:induction false} IndexIsFromEntries(entries: seq<Entry>, key: Bytes)
    ensures key in Index(entries) ==> exists e | e in entries :: e.key == key && Id(e) == Index(entries)[key]
    ensures (exists e | e in entries :: e.key == key) ==> key in Index(entries)
  {
    if entries != [] {
      IndexIsFromEntries(entries[..|entries|-1], key);
      assert entries == entries[..|entries|-1] + [entries[|entries|-1]];
    }
  }

  lemma IdUnpacks(e: Entry)
    requires FixedSize(e.t).Some?
    ensures Id(e) % 32 == e.t && Id(e) / 32 == e.offset
  {
  }

  /** lmakeindex, of a document given by its bytes; None where the source raises an error. */
  method MakeIndex(doc: Bytes) returns (r: Option<map<Bytes, nat>>)
    requires |doc| >= 4 && 0 <= Int32(doc[..4]) - 5 <= |doc| - 4
    ensures var entries := Entries(doc[4..Int32(doc[..4]) - 1], 4);
            r == if entries.None? then None else Some(Index(entries.value))
  {
    hide Entries, Skip, Index, ReadCString, LE, UnLE, ReadCounted;
    var body := doc[4..Int32(doc[..4]) - 1];
    var br := new Reader(body);
    ghost var done: seq<Entry> := [];
    var index: map<Bytes, nat> := map[];
    IndexOfNothing();
    EntriesBehind([], Entries(body, 4));
    while br.rest != []
      invariant fresh(br) && |br.rest| <= |body| && index == Index(done)
      invariant Entries(body, 4) == Behind(done, Entries(br.rest, 4 + |body| - |br.rest|))
      decreases |br.rest|
    {
      ghost var bs, offset := br.rest, 4 + |body| - |br.rest|;
      EntriesUnfold(bs, offset);
      var bt := br.Take(1);
      var key := br.TakeCString();
      if key.None? {
        return None;
      }
      var at := 4 + |body| - |br.rest|;
      ghost var value := br.rest;
      CStringIsShorter(bs[1..]);
      var ok := SkipValue(br, bt.value[0]);
      if !ok {
        return None;
      }
      if FixedSize(bt.value[0]).Some? {
        ghost var e := Entry(key.value, bt.value[0], at);
        BehindTwice(done, e, Entries(br.rest, 4 + |body| - |br.rest|));
        IndexSnoc(done, e);
        done := done + [e];
        index := index[key.value := bt.value[0] + 32 * at];
      }
    }
    EntriesOfNothing(4 + |body|);
    assert done + [] == done;
    r := Some(index);
  }

  /** The switch of lmakeindex. */
  method SkipValue(br: Reader, t: byte) returns (ok: bool)
    modifies br
    ensures ok == Skip(t, old(br.rest)).Some?
    ensures ok ==> Some(br.rest) == Skip(t, old(br.rest))
  {
    hide ReadCString, ReadCounted;
    var b: Option<Bytes>;
    if FixedSize(t).Some? {
      b := br.Take(FixedSize(t).value);
    } else if t == BSON_JSCODE || t == BSON_SYMBOL || t == BSON_STRING {
      b := br.TakeCounted(0);
    } else if t == BSON_CODEWS || t == BSON_ARRAY || t == BSON_DOCUMENT {
      b := br.TakeCounted(-4);
    } else if t == BSON_BINARY {
      b := br.TakeCounted(1);
    } else if IsKeyType(t) {
      return true;
    } else if t == BSON_REGEX {
      b := br.TakeCString();
      if b.None? {
        return false;
      }
      b := br.TakeCString();
    } else if t == BSON_DBPOINTER {
      b := br.TakeCounted(12);
    } else {
      return false;
    }
    ok := b.Some?;
  }

  function Behind(done: seq<Entry>, more: Option<seq<Entry>>): Option<seq<Entry>> {
    match more
    case None => None
    case Some(es) => Some(done + es)
  }

  lemma EntriesBehind(done: seq<Entry>, more: Option<seq<Entry>>)
    ensures done == [] ==> Behind(done, more) == more
  {
    if more.Some? {
      assert [] + more.value == more.value;
    }
  }

  lemma BehindTwice(done: seq<Entry>, e: Entry, more: Option<seq<Entry>>)
    ensures Behind(done, Behind([e], more)) == Behind(done + [e], more)
  {
    if more.Some? {
      assert done + ([e] + more.value) == done + [e] + more.value;
    }
  }

  lemma EntriesOfNothing(offset: nat)
    ensures Entries([], offset) == Some([])
  {
  }

  lemma IndexOfNothing()
    ensures Index([]) == map[]
  {
  }

  lemma IndexSnoc(entries: seq<Entry>, e: Entry)
    ensures Index(entries + [e]) == Index(entries)[e.key := Id(e)]
  {
    assert (entries + [e])[..|entries|] == entries;
  }

  lemma EntriesUnfold(bs: Bytes, offset: nat)
    requires bs != []
    ensures var key := ReadCString(bs[1..]);
            && (key.None? ==> Entries(bs, offset).None?)
            && (key.Some? ==>
                  var value := key.value.1;
                  var behind := Skip(bs[0], value);
                  && (behind.None? ==> Entries(bs, offset).None?)
                  && (behind.Some? ==>
                        var more := Entries(behind.value, offset + |bs| - |behind.value|);
                        Entries(bs, offset) ==
                          if FixedSize(bs[0]).None? then more
                          else Behind([Entry(key.value.0, bs[0], offset + |bs| - |value|)], more)))
  {
  }

  // ---------- lreplace ----------

  /** The bytes that lreplace writes for a value of type t, or None for an error. (A number that
      is not a float is not converted to one here.) */
  function NewBytes(t: byte, v: Value): (b: Option<Bytes>)
    ensures b.Some? ==> FixedSize(t) == Some(|b.value|)
  {
    if t == BSON_REAL then if v.Real? then Some(LE(v.bits, 8)) else None
    else if t == BSON_BOOLEAN then Some([if v == Bool(false) then 0 else 1])
    else if t == BSON_OBJECTID || t == BSON_DATE || t == BSON_TIMESTAMP then
      if v.Str? && |v.s| >= 6 && v.s[0] == 0 && v.s[1] == t && TaggedOutcome(t, v.s[2..]).Written? then
        Some(TaggedPayload(t, v.s[2..]))
      else None
    else if t == BSON_INT32 then if v.Int? then Some(LE32(v.i)) else None
    else if t == BSON_INT64 then if v.Int? then Some(LE64(v.i)) else None
    else None
  }

  /** Values that an element of type t can hold: other integers lose their high bits, and any
      value counts as true or false. */
  predicate Holds(t: byte, v: Value) {
    && (t == BSON_INT32 ==> v.Int? && Is32Bit(v.i))
    && (t == BSON_BOOLEAN ==> v.Bool?)
  }

  lemma NewBytesReadBack(t: byte, v: Value)
    requires NewBytes(t, v).Some? && Holds(t, v)
    ensures FixedValue(t, NewBytes(t, v).value) == v
  {
    hide LE, UnLE;
    if v.Int? {
      if t == BSON_INT32 {
        Int32RoundTrip(v.i);
      } else if t == BSON_INT64 {
        Int64RoundTrip(v.i);
      }
    } else if v.Real? {
      Powers();
      UnLEOfLE(v.bits, 8);
    } else if v.Str? {
      assert [0, t] + v.s[2..] == v.s;
      if t == BSON_DATE {
        DateReadsBack(v.s[2..]);
      } else if t == BSON_TIMESTAMP {
        TimestampReadsBack(v.s[2..]);
      }
    }
  }

  /** What a type of fixed size takes in place of its value: a float a float, a boolean anything, the
      integers an integer, and the others a string of their kind and length. */
  lemma TakenValues(t: byte, v: Value)
    ensures NewBytes(t, v).Some? <==>
              || (t == 1 && v.Real?) || t == 8 || ((t == 16 || t == 18) && v.Int?)
              || (v.Str? && |v.s| >= 2 && v.s[0] == 0 && v.s[1] == t &&
                  ((t == 7 && |v.s| == 14) || (t == 9 && |v.s| == 6) || (t == 17 && |v.s| == 10)))
  {
  }

  /** It is read as that value, but for a boolean only false is false, and of an integer 32 bits are
      kept. */
  lemma TakenIsRead(t: byte, v: Value)
    requires NewBytes(t, v).Some?
    ensures var u := FixedValue(t, NewBytes(t, v).value);
            if t == 8 then u == Bool(v != Bool(false))
            else if t == 16 then u.Int? && -0x8000_0000 <= u.i < 0x8000_0000 && exists k: int :: v.i == u.i + k * 0x1_0000_0000
            else u == v
  {
    if t == 16 {
      LowBitsAreRead(v.i);
    } else if t != 8 {
      NewBytesReadBack(t, v);
    }
    hide LE, UnLE, LE32;
  }

  lemma LowBitsAreRead(i: int)
    ensures var r := Int32(LE32(i)); -0x8000_0000 <= r < 0x8000_0000 && exists k: int :: i == r + k * 0x1_0000_0000
  {
    var u := i % TWO32;
    var r := Signed(u, TWO32);
    Powers();
    UnLEOfLE(u, 4);
    var k := i / TWO32 + if r < 0 then 1 else 0;
    assert i == r + k * 0x1_0000_0000;
    hide LE, UnLE;
  }

  /** Replacing the value of an indexed key by one that its type can hold yields a document that
      decodes to the old one with that key, and no other, changed. */
  lemma ReplaceAgreesWithDecode(doc: Bytes, key: Bytes, v: Value) returns (k: nat)
    requires ReadDocument(doc, false).Some?
    requires var entries := Entries(doc[4..Int32(doc[..4]) - 1], 4);
             && entries.Some? && key in Index(entries.value)
             && var t := Index(entries.value)[key] % 32; NewBytes(t, v).Some? && Holds(t, v)
    ensures var (before, rest) := ReadDocument(doc, false).value;
            var id := Index(Entries(doc[4..Int32(doc[..4]) - 1], 4).value)[key];
            var b := NewBytes(id % 32, v).value;
            && k < |before.fields| && before.fields[k].key == Name(key) && id / 32 + |b| <= |doc|
            && ReadDocument(Patch(doc, id / 32, b), false) ==
                 Some((Table(false, before.fields[k := Field(Name(key), v)]), rest))
  {
    hide LE, UnLE, ReadFields, Entries, Index, NewBytes, Holds, FixedSize;
    var body := doc[4..Int32(doc[..4]) - 1];
    var at, b;
    k, at, b := ReplaceInBody(body, key, v);
    PatchDocument(doc, at, b, ReadFields(Patch(body, at, b), false).value);
  }

  lemma ReplaceInBody(body: Bytes, key: Bytes, v: Value) returns (k: nat, at: nat, b: Bytes)
    requires ReadFields(body, false).Some? && Entries(body, 4).Some? && key in Index(Entries(body, 4).value)
    requires var t := Index(Entries(body, 4).value)[key] % 32; NewBytes(t, v).Some? && Holds(t, v)
    ensures var id := Index(Entries(body, 4).value)[key];
            at + 4 == id / 32 && NewBytes(id % 32, v) == Some(b) && at + |b| <= |body|
    ensures var fields := ReadFields(body, false).value;
            && k < |fields| && fields[k].key == Name(key)
            && ReadFields(Patch(body, at, b), false) == Some(fields[k := Field(Name(key), v)])
  {
    hide ReadFields, Entries, Index, NewBytes, Holds, KeyOf, FixedValue, FixedSize;
    var es := Entries(body, 4).value;
    IndexIsFromEntries(es, key);
    var e :| e in es && e.key == key && Id(e) == Index(es)[key];
    k := EntriesAreFields(body, false, 4, e);
    IdUnpacks(e);
    at, b := e.offset - 4, NewBytes(e.t, v).value;
    NewBytesReadBack(e.t, v);
    assert ReplacesTo(body, false, at, e.t, k, b);
    NameKey(key);
  }

  lemma NameKey(key: Bytes)
    ensures KeyOf(false, key) == Name(key)
  {
  }

  /** A document is its length, its body, a NUL and what follows it. */
  lemma DocumentOf(length: Bytes, body: Bytes, rest: Bytes, isArray: bool)
    requires |length| == 4 && Int32(length) - 5 == |body|
    ensures ReadDocument(length + (body + ([0] + rest)), isArray) ==
              if ReadFields(body, isArray).None? then None
              else Some((Table(isArray, ReadFields(body, isArray).value), rest))
  {
    hide ReadFields, Int32;
    Halves(length, body + ([0] + rest));
    Halves(body, [0] + rest);
    Halves([0], rest);
  }

  lemma DocumentParts(doc: Bytes, isArray: bool)
    requires ReadDocument(doc, isArray).Some?
    ensures |doc| >= 4 && 0 <= Int32(doc[..4]) - 5 <= |doc| - 5
    ensures doc == doc[..4] + (doc[4..Int32(doc[..4]) - 1] + ([0] + ReadDocument(doc, isArray).value.1))
  {
    hide ReadFields, Int32;
    var (body, end) := ReadCounted(doc, -5).value;
    assert doc[4..] == body + end;
    Halves(body, end);
    assert body == doc[4..Int32(doc[..4]) - 1];
    assert end == [0] + end[1..];
    assert doc == doc[..4] + doc[4..];
  }

  lemma PatchBefore(bs: Bytes, tail: Bytes, at: nat, b: Bytes)
    requires at + |b| <= |bs|
    ensures Patch(bs + tail, at, b) == Patch(bs, at, b) + tail
  {
  }

  /** Writing inside the body of a document leaves its frame alone. */
  lemma PatchDocument(doc: Bytes, at: nat, b: Bytes, fields: seq<Field>)
    requires ReadDocument(doc, false).Some?
    requires var body := doc[4..Int32(doc[..4]) - 1];
             at + |b| <= |body| && ReadFields(Patch(body, at, b), false) == Some(fields)
    ensures at + 4 + |b| <= |doc|
    ensures ReadDocument(Patch(doc, at + 4, b), false) == Some((Table(false, fields), ReadDocument(doc, false).value.1))
  {
    hide ReadFields, ReadDocument, Int32, Patch;
    DocumentParts(doc, false);
    var length, body, rest := doc[..4], doc[4..Int32(doc[..4]) - 1], ReadDocument(doc, false).value.1;
    PatchBehind(length, body + ([0] + rest), at, b);
    PatchBefore(body, [0] + rest, at, b);
    PatchKeepsLength(body, at, b);
    DocumentOf(length, Patch(body, at, b), rest, false);
  }

  lemma PatchKeepsLength(bs: Bytes, at: nat, b: Bytes)
    requires at + |b| <= |bs|
    ensures |Patch(bs, at, b)| == |bs|
  {
  }

  /** lreplace, of the element that id stands for. */
  method Replace(doc: array<byte>, id: nat, v: Value) returns (ok: bool)
    requires FixedSize(id % 32).Some? && id / 32 + FixedSize(id % 32).value <= doc.Length
    modifies doc
    ensures ok == NewBytes(id % 32, v).Some?
    ensures doc[..] == if ok then Patch(old(doc[..]), id / 32, NewBytes(id % 32, v).value) else old(doc[..])
  {
    hide NewBytes;
    var t, offset := id % 32, id / 32;
    var b := NewBytes(t, v);
    ok := b.Some?;
    if ok {
      StoreAt(doc, offset, b.value);
    }
  }

  /** Writes bytes into a document. */
  method StoreAt(doc: array<byte>, offset: nat, b: Bytes)
    requires offset + |b| <= doc.Length
    modifies doc
    ensures doc[..] == Patch(old(doc[..]), offset, b)
  {
    ghost var had := doc[..];
    for i := 0 to |b|
      invariant forall j | 0 <= j < doc.Length ::
                  doc[j] == if offset <= j < offset + i then b[j - offset] else had[j]
    {
      doc[offset + i] := b[i];
    }
    assert doc[..] == Patch(had, offset, b);
  }
}
