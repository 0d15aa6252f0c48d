/** Which bytes the decoder takes: exactly the documents of BSON, told by their lengths and NULs. */
module BsonShapes {
  import opened Common
  import opened BsonFormat
  import opened BsonDecode
  import BsonIndex

  // ---------- the grammar ----------

  /** Two strings, each with a NUL behind it and none inside. */
  ghost predicate AreTwoStrings(p: Bytes) {
    exists i: nat | i < |p| - 1 :: p[i] == 0 && 0 !in p[..i] && p[|p|-1] == 0 && 0 !in p[i+1..|p|-1]
  }

  /** A length, and as many bytes as it says and some more. */
  predicate IsCounted(p: Bytes, more: int) { |p| >= 4 && |p| - 4 == Int32(p[..4]) + more }

  /** The bytes of a value of type t. */
  ghost predicate IsValue(t: byte, p: Bytes)
    decreases |p|, 2
  {
    match t
    case 1 => |p| == 8
    case 2 => IsCounted(p, 0) && |p| > 4
    case 3 => IsDocument(p)
    case 4 => IsDocument(p)
    case 5 => IsCounted(p, 1) && |p| > 4
    case 7 => |p| == 12
    case 8 => |p| == 1
    case 9 => |p| == 8
    case 10 => p == []
    case 11 => AreTwoStrings(p)
    case 12 => IsCounted(p, 12)
    case 13 => IsCounted(p, 0)
    case 14 => IsCounted(p, 0)
    case 15 => IsCounted(p, -4)
    case 16 => |p| == 4
    case 17 => |p| == 8
    case 18 => |p| == 8
    case 127 => p == []
    case 255 => p == []
    case _ => false
  }

  /** A document: its length, which counts itself and the NUL at the end, and elements. */
  ghost predicate IsDocument(p: Bytes)
    decreases |p|, 1
  {
    |p| >= 5 && Int32(p[..4]) == |p| && p[|p|-1] == 0 && AreElements(p[4..|p|-1])
  }

  /** Elements: each is a type, a name with a NUL behind it, and a value. */
  ghost predicate AreElements(p: Bytes)
    decreases |p|, 0
  {
    p == [] ||
    exists k: nat, n: nat | k < n <= |p| :: 1 <= k && p[k] == 0 && 0 !in p[1..k] && IsValue(p[0], p[k+1..n]) && AreElements(p[n..])
  }

  // ---------- the decoder takes nothing else ----------

  lemma {:induction false} CStringShape(bs: Bytes, k: nat)
    requires k < |bs|
    ensures ReadCString(bs) == Some((bs[..k], bs[k+1..])) <==> bs[k] == 0 && 0 !in bs[..k]
  {
    if bs[k] == 0 && 0 !in bs[..k] {
      if k > 0 {
        assert bs[0] == bs[..k][0];
        assert forall x | x in bs[1..][..k-1] :: x in bs[..k];
        CStringShape(bs[1..], k - 1);
        assert bs[1..][k..] == bs[k+1..] && [bs[0]] + bs[1..][..k-1] == bs[..k];
      }
    }
  }

  lemma CountedShape(bs: Bytes, more: int, m: nat)
    requires m <= |bs|
    ensures (ReadCounted(bs, more).Some? && |ReadCounted(bs, more).value.1| == |bs| - m) <==> IsCounted(bs[..m], more)
    ensures IsCounted(bs[..m], more) ==> ReadCounted(bs, more) == Some((bs[4..m], bs[m..]))
  {
    if m >= 4 {
      assert bs[..m][..4] == bs[..4];
    }
  }

  /** The decoder reads the first m bytes as a value and leaves the others. */
  ghost predicate TakesValue(t: byte, bs: Bytes, m: nat) {
    m <= |bs| && ReadValue(t, bs).Some? && ReadValue(t, bs).value.1 == bs[m..]
  }

  lemma SameRest(bs: Bytes, a: nat, b: nat)
    requires a <= |bs| && b <= |bs|
    ensures bs[a..] == bs[b..] <==> a == b
  {
    if bs[a..] == bs[b..] {
      assert |bs[a..]| == |bs[b..]|;
    }
  }

  lemma FixedShape(t: byte, bs: Bytes, m: nat)
    requires m <= |bs| && FixedSize(t).Some?
    ensures TakesValue(t, bs, m) <==> IsValue(t, bs[..m])
  {
    var n := FixedSize(t).value;
    hide FixedValue;
    if n <= |bs| {
      SameRest(bs, n, m);
    }
  }

  lemma CountedValueShape(t: byte, bs: Bytes, m: nat)
    requires m <= |bs| && (t == 2 || t == 5 || 12 <= t <= 15)
    ensures TakesValue(t, bs, m) <==> IsValue(t, bs[..m])
  {
    hide ReadCounted, IsCounted, IsDocument, AreElements, AreTwoStrings, ReadDocument;
    var more := if t == 12 then 12 else if t == 15 then -4 else if t == 5 then 1 else 0;
    CountedShape(bs, more, m);
    if ReadCounted(bs, more).Some? {
      CountedRest(bs, more, m);
    }
  }

  lemma CountedRest(bs: Bytes, more: int, m: nat)
    requires m <= |bs| && ReadCounted(bs, more).Some?
    ensures ReadCounted(bs, more).value.1 == bs[m..] <==> IsCounted(bs[..m], more)
  {
    var n := |bs| - |ReadCounted(bs, more).value.1|;
    CountedShape(bs, more, m);
    CountedShape(bs, more, n);
    SameRest(bs, n, m);
    hide ReadCounted, IsCounted;
  }

  lemma StringsAreTwo(bs: Bytes, m: nat)
    requires TakesValue(11, bs, m)
    ensures AreTwoStrings(bs[..m])
  {
    var p := bs[..m];
    var (r1, rest1) := ReadCString(bs).value;
    var (r2, rest2) := ReadCString(rest1).value;
    hide ReadCString, TakesValue;
    var i := |r1|;
    assert |rest1| == |bs| - i - 1 && |rest2| == |rest1| - |r2| - 1 && |rest2| == |bs| - m;
    assert bs == r1 + [0] + (r2 + [0] + rest2);
    assert p == r1 + [0] + (r2 + [0]);
    assert p[i] == 0 && p[..i] == r1 && p[|p|-1] == 0 && p[i+1..|p|-1] == r2;
  }

  lemma TwoStringsAreRead(bs: Bytes, m: nat)
    requires m <= |bs| && AreTwoStrings(bs[..m])
    ensures TakesValue(11, bs, m)
  {
    hide TakesValue;
    var p := bs[..m];
    var i: nat :| i < |p| - 1 && p[i] == 0 && 0 !in p[..i] && p[|p|-1] == 0 && 0 !in p[i+1..|p|-1];
    assert p[..i] == bs[..i] && p[i+1..|p|-1] == bs[i+1..m-1];
    StringsAt(bs, i, m);
  }

  lemma StringsAt(bs: Bytes, i: nat, m: nat)
    requires i < m - 1 && m <= |bs| && bs[i] == 0 && 0 !in bs[..i] && bs[m-1] == 0 && 0 !in bs[i+1..m-1]
    ensures TakesValue(11, bs, m)
  {
    hide ReadCString;
    CStringShape(bs, i);
    var rest := bs[i+1..];
    assert rest[..m-2-i] == bs[i+1..m-1];
    CStringShape(rest, m - 2 - i);
    assert rest[m-1-i..] == bs[m..];
  }

  /** The decoder takes the first m bytes for a value of type t exactly if they are one. */
  lemma {:induction false} ValueShape(t: byte, bs: Bytes, m: nat)
    requires m <= |bs|
    ensures TakesValue(t, bs, m) <==> IsValue(t, bs[..m])
    decreases |bs|, 2
  {
    if FixedSize(t).Some? {
      FixedShape(t, bs, m);
    } else if t == 2 || t == 5 || 12 <= t <= 15 {
      CountedValueShape(t, bs, m);
    } else if t == 11 {
      if TakesValue(t, bs, m) {
        StringsAreTwo(bs, m);
      }
      if AreTwoStrings(bs[..m]) {
        TwoStringsAreRead(bs, m);
      }
    } else if t == 3 || t == 4 {
      DocumentShape(bs, t == 4, m);
    } else {
      EmptyShape(t, bs, m);
    }
    hide ReadDocument, IsDocument, AreTwoStrings, IsCounted, ReadCounted, ReadCString, FixedValue;
  }

  lemma EmptyShape(t: byte, bs: Bytes, m: nat)
    requires m <= |bs| && FixedSize(t).None? && !(t == 2 || t == 5 || 12 <= t <= 15 || t == 11 || t == 3 || t == 4)
    ensures TakesValue(t, bs, m) <==> IsValue(t, bs[..m])
  {
    SameRest(bs, 0, m);
    assert bs[0..] == bs;
    hide ReadDocument, IsDocument, AreTwoStrings, IsCounted, ReadCounted, ReadCString;
  }

  /** The decoder takes the first m bytes for a document exactly if they are one. */
  lemma {:induction false} DocumentShape(bs: Bytes, isArray: bool, m: nat)
    requires m <= |bs|
    ensures (ReadDocument(bs, isArray).Some? && ReadDocument(bs, isArray).value.1 == bs[m..]) <==> IsDocument(bs[..m])
    decreases |bs|, 1
  {
    var p := bs[..m];
    hide ReadFields, AreElements;
    if ReadCounted(bs, -5).Some? {
      var (body, rest) := ReadCounted(bs, -5).value;
      var n := 4 + |body|;
      assert body == bs[4..n] && rest == bs[n..];
      FieldsShape(body, isArray);
      if n + 1 <= |bs| {
        SameRest(bs, n + 1, m);
        assert rest[1..] == bs[n+1..];
      }
      if m == n + 1 {
        assert p[..4] == bs[..4] && p[4..|p|-1] == body && p[|p|-1] == bs[n];
      }
    }
    if m >= 4 {
      assert p[..4] == bs[..4];
    }
  }

  /** The decoder takes bytes for fields exactly if they are elements. */
  lemma {:induction false} FieldsShape(bs: Bytes, isArray: bool)
    ensures ReadFields(bs, isArray).Some? <==> AreElements(bs)
    decreases |bs|, 0, 1
  {
    hide ReadFields, AreElements;
    if ReadFields(bs, isArray).Some? {
      FieldsAreElements(bs, isArray);
    }
    if AreElements(bs) {
      ElementsAreRead(bs, isArray);
    }
  }

  lemma {:induction false} FieldsAreElements(bs: Bytes, isArray: bool)
    requires ReadFields(bs, isArray).Some?
    ensures AreElements(bs)
    decreases |bs|, 0, 0
  {
    hide ReadValue, IsValue, ReadCString;
    if bs != [] {
      var (key, rest) := ReadCString(bs[1..]).value;
      var rest' := ReadValue(bs[0], rest).value.1;
      var k, n, m := |key| + 1, |bs| - |rest'|, |rest| - |rest'|;
      assert bs == [bs[0]] + key + [0] + rest;
      assert bs[1..k] == key && bs[k] == 0 && rest == bs[k+1..];
      ValueLeaves(bs[0], rest);
      assert rest' == rest[m..] == bs[n..];
      ValueShape(bs[0], rest, m);
      assert rest[..m] == bs[k+1..n];
      FieldsShape(bs[n..], isArray);
    }
  }

  lemma {:induction false} ElementsAreRead(bs: Bytes, isArray: bool)
    requires AreElements(bs)
    ensures ReadFields(bs, isArray).Some?
    decreases |bs|, 0, 0
  {
    hide ReadValue, IsValue, ReadCString, TakesValue;
    if bs != [] {
      var k: nat, n: nat :| k < n <= |bs| && 1 <= k && bs[k] == 0 && 0 !in bs[1..k] && IsValue(bs[0], bs[k+1..n]) && AreElements(bs[n..]);
      hide AreElements;
      assert bs[k+1..][..n-k-1] == bs[k+1..n];
      ValueShape(bs[0], bs[k+1..], n - k - 1);
      FieldsShape(bs[n..], isArray);
      ElementIsRead(bs, k, n, isArray);
    }
  }

  lemma ElementIsRead(bs: Bytes, k: nat, n: nat, isArray: bool)
    requires k < n <= |bs| && 1 <= k && bs[k] == 0 && 0 !in bs[1..k]
    requires TakesValue(bs[0], bs[k+1..], n - k - 1) && ReadFields(bs[n..], isArray).Some?
    ensures ReadFields(bs, isArray).Some?
  {
    hide ReadValue, IsValue, ReadCString;
    assert bs[1..][..k-1] == bs[1..k] && bs[1..][k..] == bs[k+1..];
    CStringShape(bs[1..], k - 1);
    assert bs[k+1..][n-k-1..] == bs[n..];
  }

  /** What is left behind a value is the end of the bytes. */
  lemma ValueLeaves(t: byte, bs: Bytes)
    requires ReadValue(t, bs).Some?
    ensures var rest := ReadValue(t, bs).value.1; |rest| <= |bs| && rest == bs[|bs| - |rest|..]
  {
    BsonIndex.ValueIsLocal(t, bs, []);
    hide ReadValue;
  }
}
