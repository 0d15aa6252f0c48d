/** The decoder of lua-bson as it runs: readers that advance over the bytes of one document. */
module BsonReader {
  import opened Common
  import opened BsonFormat
  import opened BsonEncode
  import opened BsonDecode

  /** struct bson_reader: what is left to be read. The methods return None where the source
      raises an error. */
  class Reader {
    var rest: Bytes

    constructor (bytes: Bytes)
      ensures rest == bytes
    {
      rest := bytes;
    }

    /** read_bytes. */
    method Take(n: int) returns (r: Option<Bytes>)
      modifies this
      ensures match ReadBytes(old(rest), n)
              case None => r.None? && rest == old(rest)
              case Some((b, more)) => r == Some(b) && rest == more
    {
      if n < 0 || n > |rest| {
        return None;
      }
      r := Some(rest[..n]);
      rest := rest[n..];
    }

    /** read_int32 and read_bytes, of that length and some more. */
    method TakeCounted(more: int) returns (r: Option<Bytes>)
      modifies this
      ensures match ReadCounted(old(rest), more)
              case None => r.None?
              case Some((b, behind)) => r == Some(b) && rest == behind
    {
      var b := Take(4);
      if b.None? {
        return None;
      }
      r := Take(Int32(b.value) + more);
    }

    /** read_cstring. */
    method TakeCString() returns (r: Option<Bytes>)
      modifies this
      ensures match ReadCString(old(rest))
              case None => r.None?
              case Some((s, behind)) => r == Some(s) && rest == behind
    {
      var i := 0;
      while true
        invariant 0 <= i <= |rest| && rest == old(rest) && 0 !in rest[..i]
        decreases |rest| - i
      {
        if i == |rest| {
          NoNul(rest);
          return None;
        }
        if rest[i] == 0 {
          break;
        }
        assert rest[..i+1] == rest[..i] + [rest[i]];
        i := i + 1;
      }
      assert rest == rest[..i] + [0] + rest[i+1..];
      ReadCStringOf(rest[..i], rest[i+1..]);
      r := Some(rest[..i]);
      rest := rest[i+1..];
    }

    /** The cases of unpack_dict that do not recurse. */
    method UnpackScalar(t: byte) returns (r: Option<Value>)
      requires t != BSON_DOCUMENT && t != BSON_ARRAY
      modifies this
      ensures match ReadValue(t, old(rest))
              case None => r.None?
              case Some((v, behind)) => r == Some(v) && rest == behind
    {
      hide FixedValue, ReadCString, ReadCounted, LE, UnLE;
      if FixedSize(t).Some? {
        var b := Take(FixedSize(t).value);
        r := if b.None? then None else Some(FixedValue(t, b.value));
      } else if t == BSON_STRING {
        var b := TakeCounted(0);
        r := if b.None? || b.value == [] then None else Some(Str(b.value[..|b.value|-1]));
      } else if t == BSON_BINARY {
        var b := TakeCounted(1);
        r := if b.None? || b.value == [] then None else Some(Str([0, t] + b.value));
      } else if IsKeyType(t) {
        r := Some(Str([0, t]));
      } else if t == BSON_REGEX {
        var r1 := TakeCString();
        if r1.None? {
          return None;
        }
        var r2 := TakeCString();
        r := if r2.None? then None else Some(Str([0, t] + r1.value + [0] + r2.value + [0]));
      } else if t == BSON_DBPOINTER || t == BSON_JSCODE || t == BSON_SYMBOL || t == BSON_CODEWS {
        var start := rest;
        var b := TakeCounted(if t == BSON_DBPOINTER then 12 else if t == BSON_CODEWS then -4 else 0);
        r := if b.None? then None else Some(Str([0, t] + start[..4] + b.value));
      } else {
        r := None;
      }
    }

    /** The switch of unpack_dict. */
    method UnpackValue(t: byte) returns (r: Option<Value>)
      modifies this
      ensures match ReadValue(t, old(rest))
              case None => r.None?
              case Some((v, behind)) => r == Some(v) && rest == behind
      decreases |rest|, 1
    {
      if t == BSON_DOCUMENT || t == BSON_ARRAY {
        r := UnpackDict(t == BSON_ARRAY);
      } else {
        r := UnpackScalar(t);
      }
    }

    /** unpack_dict: a reader of its own goes over the elements. */
    method UnpackDict(isArray: bool) returns (r: Option<Value>)
      modifies this
      ensures match ReadDocument(old(rest), isArray)
              case None => r.None?
              case Some((v, behind)) => r == Some(v) && rest == behind
      decreases |rest|, 0
    {
      hide ReadFields, ReadValue, ReadCString;
      ghost var all := |rest|;
      var body := TakeCounted(-5);
      if body.None? {
        return None;
      }
      var end := Take(1);
      if end.None? || end.value[0] != 0 {
        return None;
      }
      ghost var behind := rest;
      var t := new Reader(body.value);
      var fields: seq<Field> := [];
      NothingPrepended(ReadFields(t.rest, isArray));
      while t.rest != []
        invariant fresh(t) && t != this && rest == behind && |t.rest| < all
        invariant ReadFields(body.value, isArray) == Prepended(fields, ReadFields(t.rest, isArray))
        decreases |t.rest|
      {
        ghost var bs := t.rest;
        ReadFieldsUnfold(bs, isArray);
        var bt := t.Take(1);
        var key := t.TakeCString();
        if key.None? {
          return None;
        }
        CStringIsShorter(bs[1..]);
        var v := t.UnpackValue(bt.value[0]);
        if v.None? {
          return None;
        }
        PrependedTwice(fields, Field(KeyOf(isArray, key.value), v.value), ReadFields(t.rest, isArray));
        fields := fields + [Field(KeyOf(isArray, key.value), v.value)];
      }
      NoFields(isArray);
      assert fields + [] == fields;
      r := Some(Table(isArray, fields));
    }
  }

  lemma {:induction false} NoNul(bs: Bytes)
    requires 0 !in bs
    ensures ReadCString(bs).None?
  {
    if bs != [] {
      NoNul(bs[1..]);
    }
  }

  lemma CStringIsShorter(bs: Bytes)
    ensures ReadCString(bs).Some? ==> |ReadCString(bs).value.1| < |bs|
  {
  }

  lemma ReadFieldsUnfold(bs: Bytes, isArray: bool)
    requires bs != []
    ensures var c := ReadCString(bs[1..]);
            ReadFields(bs, isArray) ==
              if c.None? then None
              else
                var v := ReadValue(bs[0], c.value.1);
                if v.None? then None
                else Prepended([Field(KeyOf(isArray, c.value.0), v.value.0)], ReadFields(v.value.1, isArray))
  {
  }

  /** lencode: the bytes of a document, or an error. */
  method Encode(v: Value) returns (r: Option<Bytes>, o: Outcome)
    requires v.Table?
    ensures o == OutcomeOf(v, 0) && r == if o.Written? then Some(Payload(v)) else None
  {
    var b := new Bson();
    o := b.PackDict(v, 0);
    if !o.Written? {
      return None, o;
    }
    assert b.Contents() == [] + Payload(v) == Payload(v);
    r := Some(b.ptr[..b.size]);
  }

  /** ldecode. */
  method Decode(bytes: Bytes) returns (r: Option<Value>)
    ensures var d := ReadDocument(bytes, false); r == if d.None? then None else Some(d.value.0)
  {
    var br := new Reader(bytes);
    r := br.UnpackDict(false);
  }

  /** A good document of at most 128 levels is encoded and decoded to itself. */
  method EncodeAndDecode(v: Value) returns (r: Option<Value>)
    requires Good(v) && v.Table? && !v.isArray && |Payload(v)| < TWO31
    ensures r.Some? <==> Depth(v) <= 129
    ensures r.Some? ==> r.value == v
  {
    hide Good, OutcomeOf, Depth, Payload, ReadDocument;
    GoodIsAccepted(v, 0);
    RoundTrip(v);
    var bytes, _ := Encode(v);
    if bytes.None? {
      return None;
    }
    r := Decode(bytes.value);
  }
}
