/** The encoder of lua-bson: a growing buffer, into which lengths are written once they are known. */
module BsonEncode {
  import opened Common
  import opened BsonFormat

  const DEFAULT_CAP: nat := 64

  function Doubled(cap: nat, times: nat): nat {
    if times == 0 then cap else 2 * Doubled(cap, times - 1)
  }

  /** The new capacity comes of doubling the old one at least once, and no more often than it takes
      to get above what is needed. */
  predicate IsDoubling(had: nat, times: nat, needed: nat, cap: nat) {
    times > 0 && cap == Doubled(had, times) > needed && (times > 1 ==> Doubled(had, times - 1) <= needed)
  }

  ghost predicate GrownFor(needed: nat, had: nat, cap: nat) {
    exists k: nat :: IsDoubling(had, k, needed, cap)
  }

  /** struct bson. */
  class Bson {
    var size: nat
    var ptr: array<byte>

    ghost predicate Valid()
      reads this, ptr
    {
      size <= ptr.Length && ptr.Length >= DEFAULT_CAP
    }

    ghost function Contents(): Bytes
      requires Valid()
      reads this, ptr
    {
      ptr[..size]
    }

    /** bson_create. */
    constructor ()
      ensures Valid() && Contents() == [] && fresh(ptr)
    {
      size := 0;
      ptr := new byte[DEFAULT_CAP](_ => 0);
    }

    /** bson_reserve: the capacity is doubled as often as needed. */
    method Reserve(sz: nat)
      requires Valid()
      modifies this`ptr
      ensures Valid() && size + sz <= ptr.Length && Contents() == old(Contents())
      ensures if size + sz <= old(ptr.Length) then ptr == old(ptr)
              else fresh(ptr) && GrownFor(size + sz, old(ptr.Length), ptr.Length)
    {
      if size + sz <= ptr.Length {
        return;
      }
      var cap := 2 * ptr.Length;
      ghost var k := 1;
      while cap <= size + sz
        invariant cap >= ptr.Length && k > 0 && cap == Doubled(ptr.Length, k)
        invariant k > 1 ==> Doubled(ptr.Length, k - 1) <= size + sz
        decreases size + sz - cap
      {
        cap, k := 2 * cap, k + 1;
      }
      assert IsDoubling(ptr.Length, k, size + sz, cap);
      var had := ptr;
      var more := new byte[cap](_ => 0);
      for i := 0 to size
        invariant more[..i] == had[..i]
      {
        more[i] := had[i];
      }
      ptr := more;
    }

    /** memcpy to the end of the buffer. */
    method WriteBytes(s: Bytes)
      requires Valid()
      modifies this, ptr
      ensures Valid() && Contents() == old(Contents()) + s && (ptr == old(ptr) || fresh(ptr))
    {
      Reserve(|s|);
      ghost var had := Contents();
      for i := 0 to |s|
        invariant Valid() && size + |s| <= ptr.Length && size == |had| && (ptr == old(ptr) || fresh(ptr))
        invariant ptr[..size + i] == had + s[..i]
      {
        ptr[size + i] := s[i];
        assert s[..i+1] == s[..i] + [s[i]];
        assert ptr[..size + i + 1] == ptr[..size + i] + [s[i]];
      }
      assert s[..|s|] == s;
      size := size + |s|;
    }

    /** write_byte. */
    method WriteByte(v: byte)
      requires Valid()
      modifies this, ptr
      ensures Valid() && Contents() == old(Contents()) + [v] && (ptr == old(ptr) || fresh(ptr))
    {
      Reserve(1);
      ptr[size] := v;
      size := size + 1;
      assert ptr[..size] == ptr[..size-1] + [v];
    }

    /** write_int32, write_int64 and write_double. */
    method WriteLE(v: nat, n: nat)
      requires Valid()
      modifies this, ptr
      ensures Valid() && Contents() == old(Contents()) + LE(v, n) && (ptr == old(ptr) || fresh(ptr))
    {
      hide LE;
      Reserve(n);
      ghost var had := Contents();
      var u := v;
      for i := 0 to n
        invariant Valid() && size == |had| + i && size + (n - i) <= ptr.Length && (ptr == old(ptr) || fresh(ptr))
        invariant Contents() + LE(u, n - i) == had + LE(v, n)
      {
        ghost var before := Contents();
        ptr[size] := u % 256;
        size := size + 1;
        assert Contents() == before + [u % 256];
        LowByteFirst(before, u, n - i);
        u := u / 256;
      }
      NoBytes(Contents(), u);
    }

    /** write_length: four bytes in place. */
    method WriteLength(v: int, off: nat)
      requires Valid() && off + 4 <= size
      modifies ptr
      ensures Valid() && Contents() == old(Contents())[..off] + LE32(v) + old(Contents())[off + 4..]
    {
      hide LE;
      var u: nat := v % TWO32;
      ghost var had := Contents();
      for i := 0 to 4
        invariant Valid()
        invariant ptr[..off + i] + LE(u, 4 - i) == had[..off] + LE32(v)
        invariant ptr[off + i..size] == had[off + i..]
      {
        ghost var before := ptr[..off + i];
        ptr[off + i] := u % 256;
        assert ptr[..off + i + 1] == before + [u % 256];
        LowByteFirst(before, u, 4 - i);
        assert ptr[off + i + 1..size] == had[off + i..][1..];
        u := u / 256;
      }
      NoBytes(ptr[..off + 4], u);
      assert Contents() == ptr[..off + 4] + ptr[off + 4..size];
    }

    /** reserve_length: four bytes to be written later. */
    method ReserveLength() returns (off: nat)
      requires Valid()
      modifies this
      ensures Valid() && off == |old(Contents())| && size == off + 4 && Contents()[..off] == old(Contents())
      ensures ptr == old(ptr) || fresh(ptr)
    {
      off := size;
      Reserve(4);
      ghost var had := Contents();
      size := size + 4;
      assert ptr[..size][..off] == had;
    }

    /** write_string. */
    method WriteString(s: Bytes)
      requires Valid()
      modifies this, ptr
      ensures Valid() && Contents() == old(Contents()) + s + [0] && (ptr == old(ptr) || fresh(ptr))
    {
      WriteBytes(s);
      WriteByte(0);
    }

    /** append_key. */
    method AppendKey(t: byte, key: Bytes)
      requires Valid()
      modifies this, ptr
      ensures Valid() && Contents() == old(Contents()) + ([t] + key + [0]) && (ptr == old(ptr) || fresh(ptr))
    {
      WriteByte(t);
      WriteString(key);
      assert old(Contents()) + [t] + key + [0] == old(Contents()) + ([t] + key + [0]);
    }

    /** write_binary: data begins with the subtype, which the length does not count. */
    method WriteBinary(data: Bytes)
      requires Valid()
      modifies this, ptr
      ensures Valid() && Contents() == old(Contents()) + (LE32(|data| - 1) + data) && (ptr == old(ptr) || fresh(ptr))
    {
      var off := ReserveLength();
      WriteBytes(data);
      ghost var had := Contents();
      WriteLength(|data| - 1, off);
      assert had[..off] == old(Contents()) && had[off + 4..] == data;
    }

    /** The part of append_one for strings that are strings. */
    method WriteText(s: Bytes)
      requires Valid()
      modifies this, ptr
      ensures Valid() && Contents() == old(Contents()) + (LE32(|s| + 1) + s + [0]) && (ptr == old(ptr) || fresh(ptr))
    {
      var off := ReserveLength();
      WriteString(s);
      ghost var had := Contents();
      WriteLength(|s| + 1, off);
      assert had[..off] == old(Contents()) && had[off + 4..] == s + [0];
    }

    /** The case BSON_REGEX of append_one: writes the two strings, unless the length of the first
        is that of no string. */
    method WriteRegex(data: Bytes) returns (o: Outcome)
      requires Valid()
      modifies this, ptr
      ensures Valid() && (ptr == old(ptr) || fresh(ptr)) && o == if Splits(data) then Written else Wild
      ensures o.Written? ==> Contents() == old(Contents()) + (data[..|data|-1] + [0])
    {
      var pattern, options := SplitRegex(data);
      if pattern < 0 {
        return Wild;
      }
      ghost var c, d := Contents(), data[..|data|-1];
      WriteString(data[..pattern]);
      WriteString(data[pattern + 1..pattern + 1 + options]);
      assert d == data[..pattern] + [0] + data[pattern + 1..|data|-1];
      assert Contents() == c + (d + [0]);
      o := Written;
    }

    /** The case BSON_TIMESTAMP of append_one. */
    method WriteTimestamp(data: Bytes)
      requires Valid() && |data| == 8
      modifies this, ptr
      ensures Valid() && (ptr == old(ptr) || fresh(ptr))
      ensures Contents() == old(Contents()) + (LE32(UnLE(data[..4])) + LE32(UnLE(data[4..])))
    {
      hide LE, UnLE;
      ghost var had := Contents();
      WriteLE(UnLE(data[..4]) % TWO32, 4);
      WriteLE(UnLE(data[4..]) % TWO32, 4);
      assert had + LE32(UnLE(data[..4])) + LE32(UnLE(data[4..])) == had + (LE32(UnLE(data[..4])) + LE32(UnLE(data[4..])));
    }

    /** The cases of append_one for strings that stand for something else. */
    method WriteTagged(t: byte, data: Bytes) returns (o: Outcome)
      requires Valid()
      modifies this, ptr
      ensures Valid() && (ptr == old(ptr) || fresh(ptr)) && o == TaggedOutcome(t, data)
      ensures o.Written? ==> Contents() == old(Contents()) + TaggedPayload(t, data)
    {
      hide LE, UnLE;
      o := Written;
      if t == BSON_BINARY {
        WriteBinary(data);
      } else if IsRawType(t) {
        if t == BSON_OBJECTID && |data| != 12 {
          return Rejected;
        }
        WriteBytes(data);
      } else if t == BSON_DATE {
        if |data| != 4 {
          return Rejected;
        }
        WriteLE(UnLE(data) * 1000 % TWO64, 8);
      } else if t == BSON_TIMESTAMP {
        if |data| != 8 {
          return Rejected;
        }
        WriteTimestamp(data);
      } else if t == BSON_REGEX {
        o := WriteRegex(data);
      } else if !IsKeyType(t) {
        return Rejected;
      }
    }

    /** The cases of append_one for values that are not tables. */
    method WriteScalar(v: Value) returns (o: Outcome)
      requires Valid() && !v.Table?
      modifies this, ptr
      ensures Valid() && (ptr == old(ptr) || fresh(ptr)) && o == OutcomeOf(v, 0)
      ensures o.Written? ==> Contents() == old(Contents()) + Payload(v)
    {
      hide LE, TaggedPayload, TaggedOutcome;
      o := Written;
      match v
      case Int(i) =>
        if Is32Bit(i) {
          WriteLE(i % TWO32, 4);
        } else {
          WriteLE(i % TWO64, 8);
        }
      case Real(bits) => WriteLE(bits, 8);
      case Bool(b) => WriteByte(if b then 1 else 0);
      case Str(s) =>
        if IsTagged(s) {
          o := WriteTagged(s[1], s[2..]);
        } else {
          WriteText(s);
        }
    }

    /** append_one: an element, or an error. */
    method AppendOne(v: Value, key: Bytes, depth: nat) returns (o: Outcome)
      requires Valid()
      modifies this, ptr
      ensures Valid() && (ptr == old(ptr) || fresh(ptr)) && o == OutcomeOf(v, depth + 1)
      ensures o.Written? ==> Contents() == old(Contents()) + ([TypeOf(v)] + key + [0] + Payload(v))
      decreases v, 1, 0
    {
      hide Payload, OutcomeOf, TypeOf;
      AppendKey(TypeOf(v), key);
      if v.Table? {
        o := PackDict(v, depth + 1);
      } else {
        o := WriteScalar(v);
        DepthIsForTables(v, depth + 1);
      }
    }

    /** The end of pack_dict: the length is written where it was reserved. */
    method CloseDocument(length: nat)
      requires Valid() && length + 4 <= size
      modifies this, ptr
      ensures Valid() && (ptr == old(ptr) || fresh(ptr))
      ensures Contents() == old(Contents())[..length] + Framed(old(Contents())[length + 4..])
    {
      ghost var had := Contents();
      WriteByte(0);
      assert Contents()[..length] == had[..length] && Contents()[length + 4..] == had[length + 4..] + [0];
      ghost var body := had[length + 4..];
      WriteLength(size - length, length);
      assert Contents() == had[..length] + (LE32(|body| + 5) + body + [0]);
    }

    /** pack_dict: the length is reserved first and written when the document is complete. */
    method PackDict(v: Value, depth: nat) returns (o: Outcome)
      requires Valid() && v.Table?
      modifies this, ptr
      ensures Valid() && (ptr == old(ptr) || fresh(ptr)) && o == OutcomeOf(v, depth)
      ensures o.Written? ==> Contents() == old(Contents()) + Payload(v)
      decreases v, 0, 0
    {
      hide Element, OutcomeUpTo, Body, KeyBytes, LE32, AcceptsKey, TypeOf;
      BodyUnfold(v, 0, depth);
      if depth > MAX_DEPTH {
        return Rejected;
      }
      var length := ReserveLength();
      ghost var start := Contents();
      for i := 0 to |v.fields|
        invariant Valid() && (ptr == old(ptr) || fresh(ptr)) && OutcomeUpTo(v, i, depth).Written?
        invariant Contents() == start + Body(v, i)
      {
        BodyUnfold(v, i + 1, depth);
        var f := v.fields[i];
        if !AcceptsKey(v.isArray, f.key) {
          FirstDecides(v, i + 1, |v.fields|, depth);
          return Rejected;
        }
        var key := KeyBytes(v.isArray, f.key);
        o := AppendOne(f.value, key, depth);
        if !o.Written? {
          FirstDecides(v, i + 1, |v.fields|, depth);
          return;
        }
      }
      assert Contents()[..length] == start[..length] && Contents()[length + 4..] == Body(v, |v.fields|);
      CloseDocument(length);
      o := Written;
    }
  }

  /** The search of append_one for the end of the pattern: from the byte before the last one
      backwards. A negative length becomes a huge size_t. With an empty string the first byte
      looked at is the NUL two places before it, and with no NUL the loop runs to its end. */
  method SplitRegex(data: Bytes) returns (pattern: int, options: nat)
    ensures pattern >= 0 <==> Splits(data)
    ensures pattern >= 0 ==>
              && pattern + 1 + options == |data| - 1 && data[pattern] == 0
              && 0 !in data[pattern + 1..pattern + 1 + options]
    ensures pattern < 0 ==> pattern == (if data == [] then -2 else -1)
  {
    var len := |data| - 1;
    if len < 0 {
      return -2, 0;
    }
    var i := 0;
    while i < len
      invariant 0 <= i <= len && 0 !in data[len - i..len]
    {
      if data[len - i - 1] == 0 {
        assert data[..len][len - i - 1] == 0;
        break;
      }
      i := i + 1;
    }
    return len - i - 1, i;
  }

  lemma LowByteFirst(before: Bytes, u: nat, n: nat)
    requires n > 0
    ensures before + LE(u, n) == before + [u % 256] + LE(u / 256, n - 1)
  {
  }

  lemma NoBytes(before: Bytes, u: nat)
    ensures before + LE(u, 0) == before
  {
  }

  lemma DepthIsForTables(v: Value, depth: nat)
    requires !v.Table?
    ensures OutcomeOf(v, depth) == OutcomeOf(v, 0)
  {
  }

  lemma BodyUnfold(v: Value, n: nat, depth: nat)
    requires v.Table? && n <= |v.fields|
    ensures n == 0 ==> Body(v, n) == [] && OutcomeUpTo(v, n, depth) == Written
    ensures n > 0 ==>
              var f := v.fields[n-1];
              && Body(v, n) == Body(v, n - 1) +
                   ([TypeOf(f.value)] + KeyBytes(v.isArray, f.key) + [0] + Payload(f.value))
              && OutcomeUpTo(v, n, depth) ==
                   if !OutcomeUpTo(v, n - 1, depth).Written? then OutcomeUpTo(v, n - 1, depth)
                   else if !AcceptsKey(v.isArray, f.key) then Rejected
                   else OutcomeOf(f.value, depth + 1)
  {
  }

  lemma {:induction false} FirstDecides(v: Value, n: nat, m: nat, depth: nat)
    requires v.Table? && n <= m <= |v.fields| && !OutcomeUpTo(v, n, depth).Written?
    ensures OutcomeUpTo(v, m, depth) == OutcomeUpTo(v, n, depth)
    decreases m
  {
    if n < m {
      FirstDecides(v, n, m - 1, depth);
    }
  }
}
