/** What the decoder makes of single elements, also of such as the encoder never writes, and the
    numbers of the format. */
module BsonElements {
  import opened Common
  import opened BsonFormat
  import opened BsonDecode

  // ---------- documents of one element ----------

  /** A document with one element: its length, the type, the name, the value and a NUL. */
  function OneElement(t: byte, name: Bytes, value: Bytes): Bytes {
    Framed([t] + name + [0] + value)
  }

  /** What is read as the value of the element is the one field of the document. */
  lemma OneFieldIsRead(t: byte, name: Bytes, value: Bytes, v: Value, rest: Bytes)
    requires 0 !in name && |name| + |value| + 7 < TWO31 && ReadValue(t, value) == Some((v, []))
    ensures ReadDocument(OneElement(t, name, value) + rest, false) == Some((Table(false, [Field(Name(name), v)]), rest))
  {
    hide ReadValue, LE32;
    var body := [t] + name + [0] + value;
    assert body[1..] == name + [0] + value;
    ReadCStringOf(name, value);
    NoFields(false);
    assert ReadFields(body, false) == Some([Field(Name(name), v)]) by {
      assert [Field(Name(name), v)] + [] == [Field(Name(name), v)];
    }
    FramedReadsBack(body, false, [Field(Name(name), v)], rest);
  }

  // ---------- dates ----------

  /** s seconds are what is left of m milliseconds when they are cut towards zero. */
  predicate AreSeconds(s: int, m: int) {
    if m >= 0 then 1000 * s <= m < 1000 * s + 1000 else 1000 * s - 1000 < m <= 1000 * s
  }

  /** A date of m milliseconds is read as a tagged date of that many whole seconds, which are kept in
      four bytes. */
  lemma DateIsSeconds(m: int, name: Bytes, rest: Bytes) returns (s: int)
    requires -TWO63 <= m < TWO63 && 0 !in name && |name| + 15 < TWO31
    ensures AreSeconds(s, m)
    ensures ReadDocument(OneElement(9, name, LE64(m)) + rest, false) ==
              Some((Table(false, [Field(Name(name), Str([0, 9] + LE(s % TWO32, 4)))]), rest))
  {
    s := DateSeconds(m);
    Int64RoundTrip(m);
    FixedIsRead(BSON_DATE, LE64(m));
    hide ReadValue, ReadDocument, LE, LE64, Int64, UnLE;
    OneFieldIsRead(BSON_DATE, name, LE64(m), Str([0, 9] + LE(s % TWO32, 4)), rest);
  }

  lemma FixedIsRead(t: byte, b: Bytes)
    requires FixedSize(t) == Some(|b|)
    ensures ReadValue(t, b) == Some((FixedValue(t, b), []))
  {
    ReadFixedOf(t, b, []);
    hide ReadValue;
    assert b + [] == b;
  }

  /** Dates of the first 2^32 seconds keep them, exactly. */
  lemma SecondsAreKept(m: int, s: int)
    requires 0 <= m < 1000 * TWO32 && AreSeconds(s, m)
    ensures 0 <= s < TWO32 && UnLE(LE(s % TWO32, 4)) == s
  {
    hide LE, UnLE, Pow256;
    Powers();
    UnLEOfLE(s, 4);
    assert s % TWO32 == s;
  }

  // ---------- booleans, strings ----------

  /** A boolean is true exactly if its byte is not 0. */
  lemma BooleanIs(b: byte, name: Bytes, rest: Bytes)
    requires 0 !in name && |name| + 8 < TWO31
    ensures ReadDocument(OneElement(8, name, [b]) + rest, false) ==
              Some((Table(false, [Field(Name(name), Bool(b != 0))]), rest))
  {
    FixedIsRead(BSON_BOOLEAN, [b]);
    hide ReadValue, ReadDocument;
    OneFieldIsRead(BSON_BOOLEAN, name, [b], Bool(b != 0), rest);
  }

  /** Of a string all bytes but the last are kept, NUL or not. */
  lemma StringIs(s: Bytes, last: byte, name: Bytes, rest: Bytes)
    requires 0 !in name && |name| + |s| + 12 < TWO31
    ensures ReadDocument(OneElement(2, name, LE32(|s| + 1) + (s + [last])) + rest, false) ==
              Some((Table(false, [Field(Name(name), Str(s))]), rest))
  {
    var data := s + [last];
    ReadCountedOf(|s| + 1, data, 0, []);
    assert LE32(|s| + 1) + data + [] == LE32(|s| + 1) + data && data[..|data|-1] == s;
    assert ReadValue(BSON_STRING, LE32(|s| + 1) + data) == Some((Str(s), []));
    hide ReadValue, ReadDocument, ReadCounted, LE32;
    OneFieldIsRead(BSON_STRING, name, LE32(|s| + 1) + data, Str(s), rest);
  }

  // ---------- keys that are numbers ----------

  /** The value of digits. */
  function ValueOf(digits: Bytes): int {
    if digits == [] then 0
    else
      var last: int := digits[|digits|-1];
      10 * ValueOf(digits[..|digits|-1]) + last - 48
  }

  /** n is printed in digits that have this value, and without a leading 0. */
  lemma {:induction false} DecimalIs(n: nat)
    ensures ValueOf(Decimal(n)) == n && Decimal(n) != [] && (n > 0 ==> Decimal(n)[0] != 48)
    ensures forall i | 0 <= i < |Decimal(n)| :: 48 <= Decimal(n)[i] <= 57
    decreases n
  {
    var init := if n < 10 then [] else Decimal(n / 10);
    var digits := Decimal(n);
    assert digits == init + [48 + n % 10] && digits[..|digits|-1] == init;
    if n >= 10 {
      DecimalIs(n / 10);
    }
    hide Decimal;
  }

  /** The key of an array is its index less one, as a number of 32 bits; a number that is the key of
      a document is printed with its sign. */
  lemma NumberKeys(i: int64, n: int)
    requires n == i
    ensures ValueOf(KeyBytes(true, Index(i))) == (n - 1) % TWO32
    ensures n >= 0 ==> ValueOf(KeyBytes(false, Index(i))) == n
    ensures n < 0 ==> var k := KeyBytes(false, Index(i)); |k| > 1 && k[0] == 45 && ValueOf(k[1..]) == -n
  {
    hide Decimal, ValueOf;
    DecimalIs((n - 1) % TWO32);
    if n >= 0 {
      DecimalIs(n);
    } else {
      DecimalIs(-n);
      assert KeyBytes(false, Index(i)) == [45] + Decimal(-n);
      assert ([45] + Decimal(-n))[1..] == Decimal(-n);
    }
  }

  lemma {:induction false} StrTolJoin(a: Bytes, b: Bytes, acc: nat)
    requires forall i | 0 <= i < |a| :: IsDigit(a[i])
    ensures StrTol(a + b, acc) == StrTol(b, StrTol(a, acc))
    decreases |a|
  {
    if a == [] {
      assert a + b == b;
    } else {
      assert (a + b)[1..] == a[1..] + b;
      StrTolJoin(a[1..], b, 10 * acc + a[0] - '0' as int);
    }
  }

  lemma {:induction false} StrTolIs(digits: Bytes)
    requires forall i | 0 <= i < |digits| :: IsDigit(digits[i])
    ensures StrTol(digits, 0) == ValueOf(digits)
    decreases |digits|
  {
    if digits != [] {
      var n := |digits| - 1;
      StrTolIs(digits[..n]);
      StrTolJoin(digits[..n], [digits[n]], 0);
      assert digits[..n] + [digits[n]] == digits && [digits[n]][1..] == [];
    }
  }

  /** An array key that begins with digits, and goes on with something else or not at all, is read as
      an index one higher, as a signed number of 32 bits. */
  lemma ArrayKeys(digits: Bytes, rest: Bytes) returns (i: int64)
    requires forall i | 0 <= i < |digits| :: 48 <= digits[i] <= 57
    requires rest != [] ==> !(48 <= rest[0] <= 57)
    ensures KeyOf(true, digits + rest) == Index(i)
    ensures -0x8000_0000 <= i < 0x8000_0000 && exists k: int :: ValueOf(digits) + 1 == i + k * 0x1_0000_0000
  {
    StrTolJoin(digits, rest, 0);
    StrTolIs(digits);
    var n := ValueOf(digits) + 1;
    i := Signed(n % TWO32, TWO32);
    var k := n / TWO32 + if i < 0 then 1 else 0;
    assert n == i + k * 0x1_0000_0000;
    hide StrTol, ValueOf;
  }

  // ---------- the numbers of the format ----------

  /** The type bytes that values get. */
  lemma TypeNumbers(v: Value)
    ensures match v
            case Int(i) => TypeOf(v) == if -0x8000_0000 <= i <= 0x7FFF_FFFF then 16 else 18
            case Real(_) => TypeOf(v) == 1
            case Bool(_) => TypeOf(v) == 8
            case Str(s) => TypeOf(v) == if |s| > 1 && s[0] == 0 then s[1] else 2
            case Table(isArray, _) => TypeOf(v) == if isArray then 4 else 3
  {
  }

  /** What can be encoded, apart from how deep it is nested: an array has numbers as keys, and a string
      that stands for something else is one of those below. */
  ghost predicate CanBeWritten(v: Value)
    decreases v
  {
    match v
    case Str(s) => |s| > 1 && s[0] == 0 ==> TaggedOutcome(s[1], s[2..]).Written?
    case Table(isArray, fields) =>
      forall i | 0 <= i < |fields| :: (isArray ==> fields[i].key.Index?) && CanBeWritten(fields[i].value)
    case _ => true
  }

  /** Encoding succeeds exactly for such values, up to 129 levels of tables. */
  lemma {:induction false} WrittenExactly(v: Value, depth: nat)
    ensures OutcomeOf(v, depth).Written? <==> CanBeWritten(v) && (v.Table? ==> depth + Depth(v) <= 129)
    decreases v
  {
    if v.Table? && depth <= MAX_DEPTH {
      FieldsAreWritten(v, |v.fields|, depth);
    }
  }

  lemma {:induction false} FieldsAreWritten(v: Value, n: nat, depth: nat)
    requires v.Table? && n <= |v.fields|
    ensures OutcomeUpTo(v, n, depth).Written? <==>
            && (forall i | 0 <= i < n :: (v.isArray ==> v.fields[i].key.Index?) && CanBeWritten(v.fields[i].value))
            && (DepthUpTo(v, n) > 0 ==> depth + 1 + DepthUpTo(v, n) <= 129)
    decreases v, n
  {
    if n > 0 {
      FieldsAreWritten(v, n - 1, depth);
      WrittenExactly(v.fields[n-1].value, depth + 1);
    }
  }

  /** The types that strings can stand for, with the lengths that are asked of them. */
  lemma TaggedNumbers(t: byte, data: Bytes)
    ensures TaggedOutcome(t, data).Written? <==>
              || t == 5 || t == 10 || t == 12 || t == 13 || t == 14 || t == 15 || t == 127 || t == 255
              || (t == 7 && |data| == 12) || (t == 9 && |data| == 4) || (t == 17 && |data| == 8)
              || (t == 11 && |data| > 0 && exists i :: 0 <= i < |data| - 1 && data[i] == 0)
    ensures TaggedOutcome(t, data).Wild? ==> t == 11
  {
    if t == 11 && |data| > 0 {
      var d := data[..|data|-1];
      assert forall i | 0 <= i < |data| - 1 :: d[i] == data[i];
      assert 0 in d <==> exists i :: 0 <= i < |d| && d[i] == 0;
    }
  }

  /** The sizes of the values that have a fixed one. */
  lemma SizeNumbers(t: byte)
    ensures FixedSize(t) ==
              if t == 1 || t == 9 || t == 17 || t == 18 then Some(8)
              else if t == 16 then Some(4)
              else if t == 8 then Some(1)
              else if t == 7 then Some(12)
              else None
  {
  }

  /** {"hello": "world"}, an example of the specification of BSON. */
  lemma HelloWorld()
    ensures var hello: Bytes, world: Bytes := [0x68, 0x65, 0x6c, 0x6c, 0x6f], [0x77, 0x6f, 0x72, 0x6c, 0x64];
            Payload(Table(false, [Field(Name(hello), Str(world))])) ==
              [0x16, 0, 0, 0, 2, 0x68, 0x65, 0x6c, 0x6c, 0x6f, 0, 6, 0, 0, 0, 0x77, 0x6f, 0x72, 0x6c, 0x64, 0, 0]
  {
    var hello: Bytes, world: Bytes := [0x68, 0x65, 0x6c, 0x6c, 0x6f], [0x77, 0x6f, 0x72, 0x6c, 0x64];
    var f := Field(Name(hello), Str(world));
    OneElementOnly(Table(false, [f]), f);
    ElementIs(f);
    TextIs(world);
    SmallNumber(6);
    SmallNumber(0x16);
    hide LE32, Element, Payload, Body, TypeOf;
    var e: Bytes := [2] + hello + [0] + ([6, 0, 0, 0] + world + [0]);
    assert Element(false, f) == e;
    assert |e| + 5 == 0x16;
    assert Framed(e) == [0x16, 0, 0, 0] + e + [0];
    FewBytes(e, hello, world);
  }

  lemma FewBytes(e: Bytes, hello: Bytes, world: Bytes)
    requires hello == [0x68, 0x65, 0x6c, 0x6c, 0x6f] && world == [0x77, 0x6f, 0x72, 0x6c, 0x64]
    requires e == [2] + hello + [0] + ([6, 0, 0, 0] + world + [0])
    ensures [0x16, 0, 0, 0] + e + [0] ==
              [0x16, 0, 0, 0, 2, 0x68, 0x65, 0x6c, 0x6c, 0x6f, 0, 6, 0, 0, 0, 0x77, 0x6f, 0x72, 0x6c, 0x64, 0, 0]
  {
  }

  lemma TextIs(s: Bytes)
    requires !IsTagged(s)
    ensures Payload(Str(s)) == LE32(|s| + 1) + s + [0] && TypeOf(Str(s)) == 2
  {
  }

  /** ["awesome", 5.05, 1986], from the other one: in a list the keys count from "0". */
  lemma Awesome()
    ensures var awesome: Bytes := [0x61, 0x77, 0x65, 0x73, 0x6f, 0x6d, 0x65];
            var list := Table(true, [Field(Index(1), Str(awesome)), Field(Index(2), Real(0x4014_3333_3333_3333)),
                                     Field(Index(3), Int(1986))]);
            && TypeOf(list) == 4
            && Payload(list) ==
                 [0x26, 0, 0, 0] + ([2, 0x30, 0] + [8, 0, 0, 0] + awesome + [0])
                 + [1, 0x31, 0, 0x33, 0x33, 0x33, 0x33, 0x33, 0x33, 0x14, 0x40] + [0x10, 0x32, 0, 0xc2, 7, 0, 0] + [0]
  {
    var awesome: Bytes := [0x61, 0x77, 0x65, 0x73, 0x6f, 0x6d, 0x65];
    var a, b, c := Field(Index(1), Str(awesome)), Field(Index(2), Real(0x4014_3333_3333_3333)), Field(Index(3), Int(1986));
    ThreeElements(Table(true, [a, b, c]), a, b, c);
    TextItem(awesome);
    RealItem();
    IntItem();
    SmallNumber(0x26);
    hide LE32, LE, Element, Body, KeyBytes, Payload, Framed, IsTagged;
    assert Element(true, a) == [2, 0x30, 0] + [8, 0, 0, 0] + awesome + [0];
    Framing(Element(true, a), Element(true, b), Element(true, c));
  }

  lemma TextItem(s: Bytes)
    requires !IsTagged(s) && |s| < 255
    ensures Element(true, Field(Index(1), Str(s))) == [2, 0x30, 0] + [|s| + 1, 0, 0, 0] + s + [0]
  {
    ItemIs(Field(Index(1), Str(s)));
    TextIs(s);
    FirstKeys();
    SmallNumber(|s| + 1);
    hide LE32, Element, Payload, TypeOf, KeyBytes;
  }

  lemma RealItem()
    ensures Element(true, Field(Index(2), Real(0x4014_3333_3333_3333))) ==
              [1, 0x31, 0, 0x33, 0x33, 0x33, 0x33, 0x33, 0x33, 0x14, 0x40]
  {
    ItemIs(Field(Index(2), Real(0x4014_3333_3333_3333)));
    FirstKeys();
    FiveAndSome();
    hide LE32, LE, Element, KeyBytes;
  }

  lemma IntItem()
    ensures Element(true, Field(Index(3), Int(1986))) == [0x10, 0x32, 0, 0xc2, 7, 0, 0]
  {
    ItemIs(Field(Index(3), Int(1986)));
    FirstKeys();
    SmallNumber(1986);
    hide LE32, LE, Element, KeyBytes;
  }

  lemma Framing(x: Bytes, y: Bytes, z: Bytes)
    requires |x| + |y| + |z| == 0x21 && LE32(0x26) == [0x26, 0, 0, 0]
    ensures Framed(x + y + z) == [0x26, 0, 0, 0] + x + y + z + [0]
  {
    hide LE32;
  }

  lemma FirstKeys()
    ensures KeyBytes(true, Index(1)) == [0x30] && KeyBytes(true, Index(2)) == [0x31] && KeyBytes(true, Index(3)) == [0x32]
  {
  }

  lemma ItemIs(f: Field)
    ensures Element(true, f) == [TypeOf(f.value)] + KeyBytes(true, f.key) + [0] + Payload(f.value)
  {
  }

  lemma ElementIs(f: Field)
    ensures Element(false, f) == [TypeOf(f.value)] + KeyBytes(false, f.key) + [0] + Payload(f.value)
  {
  }

  lemma OneElementOnly(v: Value, f: Field)
    requires v.Table? && v.fields == [f]
    ensures Payload(v) == Framed(Element(v.isArray, f))
  {
    assert Body(v, 1) == Body(v, 0) + Element(v.isArray, v.fields[0]) && Body(v, 0) == [];
    hide Element, Framed;
    assert [] + Element(v.isArray, f) == Element(v.isArray, f);
  }

  lemma ThreeElements(v: Value, a: Field, b: Field, c: Field)
    requires v.Table? && v.fields == [a, b, c]
    ensures Payload(v) == Framed(Element(v.isArray, a) + Element(v.isArray, b) + Element(v.isArray, c))
  {
    assert Body(v, 3) == Body(v, 2) + Element(v.isArray, v.fields[2]);
    assert Body(v, 2) == Body(v, 1) + Element(v.isArray, v.fields[1]);
    assert Body(v, 1) == Body(v, 0) + Element(v.isArray, v.fields[0]) && Body(v, 0) == [];
    hide Element, Framed;
    assert [] + Element(v.isArray, a) == Element(v.isArray, a);
  }

  lemma SmallNumber(n: nat)
    requires n < 65536
    ensures LE32(n) == [n % 256, n / 256, 0, 0]
  {
    assert LE(n, 4) == [n % 256] + LE(n / 256, 3) && LE(n / 256, 3) == [n / 256] + LE(0, 2);
    assert LE(0, 2) == [0] + LE(0, 1) && LE(0, 1) == [0] + LE(0, 0) && LE(0, 0) == [];
  }

  lemma FiveAndSome()
    ensures LE(0x4014_3333_3333_3333, 8) == [0x33, 0x33, 0x33, 0x33, 0x33, 0x33, 0x14, 0x40]
  {
    assert LE(0x4014_3333, 4) == [0x33, 0x33, 0x14, 0x40] by {
      assert LE(0x40_1433, 3) == [0x33, 0x14, 0x40] by {
        assert LE(0x4014, 2) == [0x14, 0x40] by {
          assert LE(0x40, 1) == [0x40] + LE(0, 0);
        }
      }
    }
    assert LE(0x40_1433_3333, 5) == [0x33] + LE(0x4014_3333, 4);
    assert LE(0x4014_3333_3333, 6) == [0x33] + LE(0x40_1433_3333, 5);
    assert LE(0x40_1433_3333_3333, 7) == [0x33] + LE(0x4014_3333_3333, 6);
  }
}
