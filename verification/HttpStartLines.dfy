/** Which versions and status codes the parser accepts: exactly numbers in their places. */
module HttpStartLines {
  import opened Common
  import opened HttpTypes
  import opened HttpCases
  import opened HttpKeywords
  import opened HttpFirstLines

  /** The pieces of a line: spaces before "HTTP/", which is read as five bytes of which the first is
      'H', a version, and for responses spaces and a status code. */
  datatype Pieces = Pieces(spaces: seq<byte>, letters: seq<byte>, major: seq<byte>, minor: seq<byte>, gap: seq<byte>, code: seq<byte>)

  predicate AreSpaces(w: seq<byte>) { forall i | 0 <= i < |w| :: w[i] == SP }

  /** How far a line has been read. */
  function Place(s: State): int {
    if s.ReqHttpStart? then 0
    else if s.ReqHttpH? || s.ResH? then 1
    else if s.ReqHttpHT? || s.ResHT? then 2
    else if s.ReqHttpHTT? || s.ResHTT? then 3
    else if s.ReqHttpHTTP? || s.ResHTTP? then 4
    else if s.ReqFirstHttpMajor? || s.ResFirstHttpMajor? then 5
    else if s.ReqHttpMajor? || s.ResHttpMajor? then 6
    else if s.ReqFirstHttpMinor? || s.ResFirstHttpMinor? then 7
    else if s.ReqHttpMinor? || s.ResHttpMinor? then 8
    else if s.ResFirstStatusCode? then 9
    else if s.ResStatusCode? then 10
    else -1
  }

  predicate OfRequest(s: State) {
    s.ReqHttpStart? || s.ReqHttpH? || s.ReqHttpHT? || s.ReqHttpHTT? || s.ReqHttpHTTP? || s.ReqFirstHttpMajor? ||
    s.ReqHttpMajor? || s.ReqFirstHttpMinor? || s.ReqHttpMinor?
  }

  /** What has been read of the pieces at a place. */
  function TextTo(h: Pieces, place: int): seq<byte> {
    h.spaces + h.letters + h.major + (if place >= 7 then [46] else []) + h.minor + (if place >= 9 then [SP] else [])
    + h.gap + h.code
  }

  predicate IsNumber(ds: seq<byte>, value: nat) { AreDigits(ds) && Spelled(ds) == value <= 999 }

  /** At place k the pieces are complete up to there, and the numbers among them are these. */
  predicate Complete(k: int, request: bool, major: nat, minor: nat, code: nat, h: Pieces) {
    && k >= 0 && AreSpaces(h.spaces) && AreSpaces(h.gap) && (!request ==> h.spaces == [])
    && |h.letters| == (if k < 5 then k else 5) && (h.letters != [] ==> h.letters[0] == 72)
    && (if k < 6 then h.major == [] else IsNumber(h.major, major) && (request ==> h.major[0] != 48))
    && (if k < 8 then h.minor == [] else IsNumber(h.minor, minor))
    && (k < 9 ==> h.gap == [])
    && (if k < 10 then h.code == [] else IsNumber(h.code, code))
  }

  /** The parser has read these pieces so far: their numbers are its numbers. */
  predicate Holds(p: Parser, h: Pieces) {
    Complete(Place(p.state), OfRequest(p.state), p.major, p.minor, p.statusCode, h)
  }

  // ---------- what was read is what the pieces say ----------

  lemma NumberGrows(ds: seq<byte>, value: nat, ch: byte)
    requires IsNumber(ds, value) && 48 <= ch <= 57 && 10 * value + (ch - 48) <= 999
    ensures IsNumber(ds + [ch], 10 * value + (ch - 48)) && (ds + [ch])[0] == ds[0]
  {
    assert (ds + [ch])[..|ds|] == ds;
  }

  lemma NumberBegins(ch: byte)
    requires 48 <= ch <= 57
    ensures IsNumber([ch], ch - 48)
  {
    assert Spelled([ch][..0]) == 0;
  }

  lemma RequestLetters(p: Parser, ch: byte)
    requires OfRequest(p.state) && Place(p.state) < 5
    ensures var k := CaseOf(p, ch);
            && (k.next.Advance? <==> (p.state.ReqHttpStart? ==> ch == 72 || ch == SP))
            && (k.next.Advance? && !(p.state.ReqHttpStart? && ch == SP) ==>
                  k.p == p.(state := k.p.state) && OfRequest(k.p.state) && Place(k.p.state) == Place(p.state) + 1)
            && (p.state.ReqHttpStart? && ch == SP ==> k.p == p)
  {
  }

  lemma ResponseLetters(p: Parser, ch: byte)
    requires !OfRequest(p.state) && 0 <= Place(p.state) < 5
    ensures var k := CaseOf(p, ch);
            k.next.Advance? && k.p == p.(state := k.p.state) && !OfRequest(k.p.state) && Place(k.p.state) == Place(p.state) + 1
  {
  }

  lemma PlaceOfStart(s: State)
    ensures Place(s) == 0 <==> s.ReqHttpStart?
    ensures s.ReqHttpStart? ==> OfRequest(s)
  {
  }

  /** The letters: only the first is looked at. */
  lemma LetterCases(p: Parser, ch: byte)
    requires 0 <= Place(p.state) < 5
    ensures var k := CaseOf(p, ch);
            k.next.Advance? <==> (Place(p.state) == 0 ==> ch == 72 || ch == SP)
    ensures var k := CaseOf(p, ch);
            k.next.Advance? ==>
              if Place(p.state) == 0 && ch == SP then k.p == p && OfRequest(p.state)
              else Place(k.p.state) == Place(p.state) + 1 && OfRequest(k.p.state) == OfRequest(p.state) && k.p == p.(state := k.p.state)
  {
    PlaceOfStart(p.state);
    if OfRequest(p.state) {
      RequestLetters(p, ch);
    } else {
      ResponseLetters(p, ch);
    }
    hide CaseOf, Place, OfRequest;
  }

  lemma FirstDigitCases(p: Parser, ch: byte)
    requires BeginsNumber(p.state)
    ensures var k := CaseOf(p, ch);
            k.next.Advance? <==>
              || (48 <= ch <= 57 && (p.state.ReqFirstHttpMajor? ==> ch != 48)) || (p.state.ResFirstStatusCode? && ch == SP)
    ensures var k := CaseOf(p, ch);
            k.next.Advance? ==>
              if ch == SP then k.p == p
              else InNumber(NumberState(p.state)) && k.p == WithNumber(p.(state := NumberState(p.state)), ch - 48)
  {
    hide AddDigit;
  }

  /** Inside a number there are digits; it ends with the byte that belongs to it, or the line. */
  lemma NextDigitCases(p: Parser, ch: byte)
    requires InNumber(p.state) && ch != CR && ch != LF
    ensures var k := CaseOf(p, ch);
            k.next.Advance? <==>
              || (48 <= ch <= 57 && 10 * NumberOf(p) + (ch - 48) <= 999)
              || (ch == 46 && Place(p.state) == 6) || (ch == SP && (p.state.ResHttpMinor? || p.state.ResStatusCode?))
    ensures var k := CaseOf(p, ch);
            k.next.Advance? ==>
              if 48 <= ch <= 57 then k.p == WithNumber(p, 10 * NumberOf(p) + (ch - 48))
              else if p.state.ResStatusCode? then k.p == p.(state := ResStatusStart)
              else Place(k.p.state) == Place(p.state) + 1 && OfRequest(k.p.state) == OfRequest(p.state) && k.p == p.(state := k.p.state)
  {
  }

  lemma PlacesOfNumbers(s: State)
    ensures BeginsNumber(s) <==> Place(s) == 5 || Place(s) == 7 || Place(s) == 9
    ensures InNumber(s) <==> Place(s) == 6 || Place(s) == 8 || Place(s) == 10
    ensures BeginsNumber(s) ==> Place(NumberState(s)) == Place(s) + 1 && OfRequest(NumberState(s)) == OfRequest(s)
  {
  }

  /** The same in numbers. */
  lemma DigitMeans(p: Parser, ch: byte)
    requires BeginsNumber(p.state) && CaseOf(p, ch).next.Advance? && ch != SP
    ensures var k, q := Place(p.state), CaseOf(p, ch).p;
            && 48 <= ch <= 57 && Place(q.state) == k + 1 && OfRequest(q.state) == OfRequest(p.state)
            && (k == 5 && OfRequest(p.state) ==> ch != 48)
            && q.major == (if k == 5 then ch - 48 else p.major) && q.minor == (if k == 7 then ch - 48 else p.minor)
            && q.statusCode == (if k == 9 then ch - 48 else p.statusCode)
  {
    FirstDigitCases(p, ch);
    hide CaseOf;
  }

  lemma MoreMeans(p: Parser, ch: byte)
    requires InNumber(p.state) && ch != CR && ch != LF && CaseOf(p, ch).next.Advance?
    requires !CaseOf(p, ch).p.state.ResStatusStart?
    ensures var k, q := Place(p.state), CaseOf(p, ch).p;
            && OfRequest(q.state) == OfRequest(p.state)
            && if 48 <= ch <= 57 then
                 && Place(q.state) == k && 10 * NumberOf(p) + (ch - 48) <= 999
                 && q.major == (if k == 6 then 10 * p.major + (ch - 48) else p.major)
                 && q.minor == (if k == 8 then 10 * p.minor + (ch - 48) else p.minor)
                 && q.statusCode == (if k == 10 then 10 * p.statusCode + (ch - 48) else p.statusCode)
               else
                 && ((ch == 46 && k == 6) || (ch == SP && k == 8)) && Place(q.state) == k + 1
                 && q.major == p.major && q.minor == p.minor && q.statusCode == p.statusCode
    ensures NumberOf(p) == if Place(p.state) == 6 then p.major else if Place(p.state) == 8 then p.minor else p.statusCode
  {
    NextDigitCases(p, ch);
    hide CaseOf;
  }

  lemma LetterIsRead(p: Parser, h: Pieces, ch: byte) returns (g: Pieces)
    requires Holds(p, h) && 0 <= Place(p.state) < 5 && CaseOf(p, ch).next.Advance?
    ensures var q := CaseOf(p, ch).p;
            Holds(q, g) && TextTo(g, Place(q.state)) == TextTo(h, Place(p.state)) + [ch] && OfRequest(q.state) == OfRequest(p.state)
  {
    LetterCases(p, ch);
    hide CaseOf, Place, OfRequest;
    g := if Place(p.state) == 0 && ch == SP then h.(spaces := h.spaces + [ch]) else h.(letters := h.letters + [ch]);
  }

  lemma DigitIsRead(p: Parser, h: Pieces, ch: byte) returns (g: Pieces)
    requires Holds(p, h) && BeginsNumber(p.state) && CaseOf(p, ch).next.Advance?
    ensures var q := CaseOf(p, ch).p;
            Holds(q, g) && TextTo(g, Place(q.state)) == TextTo(h, Place(p.state)) + [ch] && OfRequest(q.state) == OfRequest(p.state)
  {
    PlacesOfNumbers(p.state);
    if ch == SP {
      FirstDigitCases(p, ch);
      g := h.(gap := h.gap + [ch]);
    } else {
      DigitMeans(p, ch);
      NumberBegins(ch);
      g := if Place(p.state) == 5 then h.(major := [ch]) else if Place(p.state) == 7 then h.(minor := [ch]) else h.(code := [ch]);
    }
    hide CaseOf, Spelled, Place, OfRequest, BeginsNumber, NumberState, WithNumber, IsNumber;
  }

  lemma GrowsBy(k: int, request: bool, a: nat, b: nat, c: nat, h: Pieces, ch: byte) returns (g: Pieces)
    requires Complete(k, request, a, b, c, h) && (k == 6 || k == 8 || k == 10) && 48 <= ch <= 57
    requires 10 * (if k == 6 then a else if k == 8 then b else c) + (ch - 48) <= 999
    ensures Complete(k, request, if k == 6 then 10 * a + (ch - 48) else a, if k == 8 then 10 * b + (ch - 48) else b,
                     if k == 10 then 10 * c + (ch - 48) else c, g)
    ensures TextTo(g, k) == TextTo(h, k) + [ch]
  {
    hide Spelled, AreSpaces, AreDigits;
    if k == 6 {
      NumberGrows(h.major, a, ch);
      g := h.(major := h.major + [ch]);
    } else if k == 8 {
      NumberGrows(h.minor, b, ch);
      g := h.(minor := h.minor + [ch]);
    } else {
      NumberGrows(h.code, c, ch);
      g := h.(code := h.code + [ch]);
    }
  }

  lemma GoesOn(k: int, request: bool, a: nat, b: nat, c: nat, h: Pieces, ch: byte)
    requires Complete(k, request, a, b, c, h) && ((k == 6 && ch == 46) || (k == 8 && ch == SP))
    ensures Complete(k + 1, request, a, b, c, h) && TextTo(h, k + 1) == TextTo(h, k) + [ch]
  {
    hide IsNumber, AreSpaces;
  }

  lemma MoreIsRead(p: Parser, h: Pieces, ch: byte) returns (g: Pieces)
    requires Holds(p, h) && InNumber(p.state) && ch != CR && ch != LF && CaseOf(p, ch).next.Advance?
    requires !CaseOf(p, ch).p.state.ResStatusStart?
    ensures var q := CaseOf(p, ch).p;
            Holds(q, g) && TextTo(g, Place(q.state)) == TextTo(h, Place(p.state)) + [ch] && OfRequest(q.state) == OfRequest(p.state)
  {
    MoreMeans(p, ch);
    PlacesOfNumbers(p.state);
    hide CaseOf, Place, OfRequest, InNumber, NumberOf, Complete, TextTo;
    if 48 <= ch <= 57 {
      g := GrowsBy(Place(p.state), OfRequest(p.state), p.major, p.minor, p.statusCode, h, ch);
    } else {
      g := h;
      GoesOn(Place(p.state), OfRequest(p.state), p.major, p.minor, p.statusCode, h, ch);
    }
  }

  /** A line without line ends goes on to the phrase at most. */
  lemma StaysInLine(p: Parser, ch: byte)
    requires ch != CR && ch != LF && CaseOf(p, ch).next.Advance?
    ensures p.state.ResStatusStart? || p.state.ResStatus? ==> CaseOf(p, ch).p.state.ResStatus?
  {
  }

  lemma {:induction false} InLine(p: Parser, w: seq<byte>)
    requires Place(p.state) >= 0 && CR !in w && LF !in w && Follow(p, w).Some?
    ensures var s := Follow(p, w).value.state; Place(s) >= 0 || s.ResStatusStart? || s.ResStatus?
    decreases |w|
  {
    hide CaseOf;
    if w != [] {
      var n := |w| - 1;
      InLine(p, w[..n]);
      var q := Follow(p, w[..n]).value;
      assert w == w[..n] + [w[n]];
      StaysInLine(q, w[n]);
      PlacesOfNumbers(q.state);
      if Place(q.state) >= 0 {
        OneMore(q, w[n]);
      }
    }
  }

  lemma OneMore(p: Parser, ch: byte)
    requires Place(p.state) >= 0 && ch != CR && ch != LF && CaseOf(p, ch).next.Advance?
    ensures var s := CaseOf(p, ch).p.state; Place(s) >= 0 || s.ResStatusStart?
  {
    PlacesOfNumbers(p.state);
    if Place(p.state) < 5 {
      LetterCases(p, ch);
    } else if BeginsNumber(p.state) {
      FirstDigitCases(p, ch);
    } else {
      NextDigitCases(p, ch);
    }
    hide CaseOf;
  }

  lemma NothingIsRead(p: Parser, h: Pieces)
    requires h == Pieces([], if OfRequest(p.state) then [] else [72], [], [], [], [])
    requires Place(p.state) == if OfRequest(p.state) then 0 else 1
    ensures Holds(p, h) && TextTo(h, Place(p.state)) == h.letters
  {
  }

  /** Whatever has been read of the line, it is the text of pieces. */
  lemma {:induction false} PiecesAreRead(p: Parser, w: seq<byte>) returns (h: Pieces)
    requires Place(p.state) == 0 || (Place(p.state) == 1 && !OfRequest(p.state))
    requires CR !in w && LF !in w && Follow(p, w).Some? && Place(Follow(p, w).value.state) >= 0
    ensures var q := Follow(p, w).value;
            && OfRequest(q.state) == OfRequest(p.state) && Holds(q, h)
            && TextTo(h, Place(q.state)) == (if OfRequest(p.state) then [] else [72]) + w
    decreases |w|
  {
    hide CaseOf, Holds, TextTo;
    if w == [] {
      h := Pieces([], if OfRequest(p.state) then [] else [72], [], [], [], []);
      NothingIsRead(p, h);
    } else {
      var n := |w| - 1;
      var q := Follow(p, w[..n]).value;
      assert w == w[..n] + [w[n]];
      InLine(p, w[..n]);
      StaysInLine(q, w[n]);
      h := PiecesAreRead(p, w[..n]);
      PlacesOfNumbers(q.state);
      if Place(q.state) < 5 {
        h := LetterIsRead(q, h, w[n]);
      } else if BeginsNumber(q.state) {
        h := DigitIsRead(q, h, w[n]);
      } else {
        h := MoreIsRead(q, h, w[n]);
      }
    }
  }

  // ---------- what the pieces say is read ----------

  lemma {:induction false} FollowJoin(p: Parser, a: seq<byte>, q: Parser, b: seq<byte>)
    requires Follow(p, a) == Some(q)
    ensures Follow(p, a + b) == Follow(q, b)
    decreases |b|
  {
    hide CaseOf;
    if b == [] {
      assert a + b == a;
    } else {
      var n := |b| - 1;
      FollowJoin(p, a, q, b[..n]);
      assert (a + b)[..|a + b|-1] == a + b[..n];
    }
  }

  lemma FollowOne(p: Parser, ch: byte)
    requires CaseOf(p, ch).next.Advance?
    ensures Follow(p, [ch]) == Some(CaseOf(p, ch).p)
  {
    hide CaseOf;
    assert [ch][..0] == [];
  }

  lemma {:induction false} SpacesFollow(p: Parser, w: seq<byte>)
    requires (Place(p.state) == 0 || Place(p.state) == 9) && AreSpaces(w)
    ensures Follow(p, w) == Some(p)
    decreases |w|
  {
    hide CaseOf;
    if w != [] {
      SpacesFollow(p, w[..|w|-1]);
      PlacesOfNumbers(p.state);
      if Place(p.state) == 0 {
        LetterCases(p, SP);
      } else {
        FirstDigitCases(p, SP);
      }
    }
  }

  lemma {:induction false} LettersFollow(p: Parser, w: seq<byte>) returns (q: Parser)
    requires 0 <= Place(p.state) <= 5 && Place(p.state) + |w| == 5 && (Place(p.state) == 0 ==> w[0] == 72)
    ensures Follow(p, w) == Some(q) && Place(q.state) == 5 && OfRequest(q.state) == OfRequest(p.state)
    ensures q == p.(state := q.state)
    decreases |w|
  {
    hide CaseOf, Place, OfRequest;
    if w == [] {
      q := p;
    } else {
      LetterCases(p, w[0]);
      FollowOne(p, w[0]);
      var r := CaseOf(p, w[0]).p;
      q := LettersFollow(r, w[1..]);
      FollowJoin(p, [w[0]], r, w[1..]);
      assert [w[0]] + w[1..] == w;
    }
  }

  lemma {:induction false} NumberFollows(p: Parser, ds: seq<byte>, value: nat)
    requires BeginsNumber(p.state) && IsNumber(ds, value) && (p.state.ReqFirstHttpMajor? ==> ds[0] != 48)
    ensures InNumber(NumberState(p.state)) && Follow(p, ds) == Some(WithNumber(p.(state := NumberState(p.state)), value))
    decreases |ds|
  {
    hide CaseOf;
    var n := |ds| - 1;
    if n == 0 {
      assert ds == [ds[0]];
      NumberBegins(ds[0]);
      FirstDigit(p, ds[0]);
      FollowOne(p, ds[0]);
    } else {
      NumberFollows(p, ds[..n], Spelled(ds[..n]));
      NextDigit(WithNumber(p.(state := NumberState(p.state)), Spelled(ds[..n])), ds[n]);
    }
  }

  /** A number, and the delimiter behind it. */
  lemma NumberAndDelimiter(p: Parser, ds: seq<byte>, value: nat, ch: byte) returns (q: Parser)
    requires BeginsNumber(p.state) && IsNumber(ds, value) && (p.state.ReqFirstHttpMajor? ==> ds[0] != 48)
    requires (Place(p.state) == 5 && ch == 46) || (p.state.ResFirstHttpMinor? && ch == SP)
    ensures Follow(p, ds + [ch]) == Some(q) && Place(q.state) == Place(p.state) + 2 && OfRequest(q.state) == OfRequest(p.state)
    ensures q == if Place(p.state) == 5 then p.(major := value, state := q.state) else p.(minor := value, state := q.state)
  {
    NumberFollows(p, ds, value);
    PlacesOfNumbers(p.state);
    var r := WithNumber(p.(state := NumberState(p.state)), value);
    NextDigitCases(r, ch);
    q := CaseOf(r, ch).p;
    FollowSnoc(p, ds, ch);
    hide CaseOf, Follow, IsNumber;
  }

  // ---------- exactly the lines ----------

  /** Before a byte that ends the line, w is a version: perhaps spaces, five bytes of which the first
      is 'H', a number that does not begin with 0, a dot, and a number, none of them above 999. */
  ghost predicate IsVersionOf(w: seq<byte>, major: nat, minor: nat) {
    exists h: Pieces | w == TextTo(h, 8) :: Complete(8, true, major, minor, 0, h)
  }

  /** Before the byte that ends the code, w is the beginning of a status line: five bytes of which the
      first is 'H', a number, a dot, a number, spaces, and a number, none of them above 999. */
  ghost predicate IsStatusOf(w: seq<byte>, major: nat, minor: nat, code: nat) {
    exists h: Pieces | w == TextTo(h, 10) :: Complete(10, false, major, minor, code, h)
  }

  /** The text of a version, spaces before it, is read to its end. */
  lemma VersionFollows(p: Parser, spaces: seq<byte>, letters: seq<byte>, ds: seq<byte>, a: nat, es: seq<byte>, b: nat)
    returns (q: Parser)
    requires p.state.ReqHttpStart? || (p.state.ResH? && spaces == [])
    requires AreSpaces(spaces) && Place(p.state) + |letters| == 5 && (p.state.ReqHttpStart? ==> letters[0] == 72)
    requires IsNumber(ds, a) && IsNumber(es, b) && (p.state.ReqHttpStart? ==> ds[0] != 48)
    ensures Follow(p, spaces + letters + (ds + [46])) == Some(q)
    ensures BeginsNumber(q.state) && Place(q.state) == 7 && OfRequest(q.state) == OfRequest(p.state)
    ensures q == p.(major := a, state := q.state)
  {
    hide CaseOf, IsNumber;
    if p.state.ReqHttpStart? {
      SpacesFollow(p, spaces);
    } else {
      assert Follow(p, []) == Some(p);
    }
    var r := LettersFollow(p, letters);
    PlacesOfNumbers(r.state);
    q := NumberAndDelimiter(r, ds, a, 46);
    PlacesOfNumbers(q.state);
    FollowJoin(p, spaces, p, letters);
    FollowJoin(p, spaces + letters, r, ds + [46]);
    hide Follow;
  }

  lemma VersionIsFollowed(p: Parser, h: Pieces, major: nat, minor: nat)
    requires p.state.ReqHttpStart? && Complete(8, true, major, minor, 0, h)
    ensures var r := Follow(p, TextTo(h, 8));
            r.Some? && r.value.state.ReqHttpMinor? && r.value.major == major && r.value.minor == minor
  {
    hide CaseOf, IsNumber, Follow, AreSpaces;
    var q := VersionFollows(p, h.spaces, h.letters, h.major, major, h.minor, minor);
    NumberFollows(q, h.minor, minor);
    FollowJoin(p, h.spaces + h.letters + (h.major + [46]), q, h.minor);
    assert h.spaces + h.letters + (h.major + [46]) + h.minor == TextTo(h, 8);
  }

  /** A request line ends with a version, as above, and with no other text. */
  lemma VersionRecognition(p: Parser, w: seq<byte>, major: nat, minor: nat)
    requires p.state.ReqHttpStart? && CR !in w && LF !in w
    ensures var r := Follow(p, w);
            (r.Some? && r.value.state.ReqHttpMinor? && r.value.major == major && r.value.minor == minor) <==>
            IsVersionOf(w, major, minor)
  {
    hide CaseOf, IsNumber, Follow, AreSpaces, TextTo;
    var r := Follow(p, w);
    if r.Some? && r.value.state.ReqHttpMinor? {
      var h := PiecesAreRead(p, w);
      if r.value.major == major && r.value.minor == minor {
        assert [] + w == w;
        assert Complete(8, true, major, minor, 0, h) && w == TextTo(h, 8);
      }
    }
    if IsVersionOf(w, major, minor) {
      var h: Pieces :| w == TextTo(h, 8) && Complete(8, true, major, minor, 0, h);
      VersionIsFollowed(p, h, major, minor);
    }
  }

  lemma StatusIsFollowed(p: Parser, w: seq<byte>, h: Pieces, major: nat, minor: nat, code: nat)
    requires p.state.ResH? && [72] + w == TextTo(h, 10) && Complete(10, false, major, minor, code, h)
    ensures var r := Follow(p, w);
            r.Some? && r.value.state.ResStatusCode? && r.value.major == major && r.value.minor == minor && r.value.statusCode == code
  {
    hide CaseOf, IsNumber, Follow, AreSpaces;
    TextOfStatus(h, w);
    hide TextTo;
    var q := VersionFollows(p, [], h.letters[1..], h.major, major, h.minor, minor);
    var s := NumberAndDelimiter(q, h.minor, minor, SP);
    SpacesFollow(s, h.gap);
    NumberFollows(s, h.code, code);
    var u := [] + h.letters[1..] + (h.major + [46]);
    FollowJoin(p, u, q, h.minor + [SP]);
    FollowJoin(p, u + (h.minor + [SP]), s, h.gap);
    FollowJoin(p, u + (h.minor + [SP]) + h.gap, s, h.code);
  }

  /** A response begins with a version and a status code, as above, and with no other text. */
  lemma StatusRecognition(p: Parser, w: seq<byte>, major: nat, minor: nat, code: nat)
    requires p.state.ResH? && CR !in w && LF !in w
    ensures var r := Follow(p, w);
            (r.Some? && r.value.state.ResStatusCode? && r.value.major == major && r.value.minor == minor && r.value.statusCode == code)
            <==> IsStatusOf([72] + w, major, minor, code)
  {
    hide CaseOf, IsNumber, Follow, AreSpaces, TextTo;
    var r := Follow(p, w);
    if r.Some? && r.value.state.ResStatusCode? {
      var h := PiecesAreRead(p, w);
      if r.value.major == major && r.value.minor == minor && r.value.statusCode == code {
        assert Complete(10, false, major, minor, code, h) && [72] + w == TextTo(h, 10);
      }
    }
    if IsStatusOf([72] + w, major, minor, code) {
      var h: Pieces :| [72] + w == TextTo(h, 10) && Complete(10, false, major, minor, code, h);
      StatusIsFollowed(p, w, h, major, minor, code);
    }
  }

  lemma TextOfStatus(h: Pieces, w: seq<byte>)
    requires [72] + w == TextTo(h, 10) && h.spaces == [] && h.letters != []
    ensures [] + h.letters[1..] + (h.major + [46]) + (h.minor + [SP]) + h.gap + h.code == w
  {
    var rest := [] + h.letters[1..] + (h.major + [46]) + (h.minor + [SP]) + h.gap + h.code;
    assert TextTo(h, 10) == [h.letters[0]] + rest;
    assert ([72] + w)[1..] == w && ([h.letters[0]] + rest)[1..] == rest;
  }

  lemma OnlyBehindVersion(p: Parser, ch: byte)
    requires OfRequest(p.state) && CaseOf(p, ch).next.Advance?
    ensures var s := CaseOf(p, ch).p.state;
            && (s.HeaderFieldStart? <==> p.state.ReqHttpMinor? && ch == LF)
            && (s.ReqLineAlmostDone? <==> p.state.ReqHttpMinor? && ch == CR)
            && (s.HeaderFieldStart? || s.ReqLineAlmostDone? || OfRequest(s))
  {
    hide AddDigit;
  }

  lemma OnlyLineFeed(p: Parser, ch: byte)
    requires p.state.ReqLineAlmostDone?
    ensures CaseOf(p, ch).next.Advance? <==> ch == LF
    ensures CaseOf(p, LF) == Case(p.(state := HeaderFieldStart), Advance)
  {
  }

  lemma VersionEnds(p: Parser)
    requires p.state.ReqHttpMinor?
    ensures CaseOf(p, LF) == Case(p.(state := HeaderFieldStart), Advance)
    ensures CaseOf(p, CR) == Case(p.(state := ReqLineAlmostDone), Advance)
  {
  }

  lemma IsAnyVersion(p: Parser, w: seq<byte>)
    requires p.state.ReqHttpStart? && CR !in w && LF !in w
    ensures (exists major, minor :: IsVersionOf(w, major, minor)) <==> Follow(p, w).Some? && Follow(p, w).value.state.ReqHttpMinor?
  {
    hide CaseOf, IsVersionOf, Follow;
    var r := Follow(p, w);
    forall major: nat, minor: nat
      ensures IsVersionOf(w, major, minor) <==>
              r.Some? && r.value.state.ReqHttpMinor? && r.value.major == major && r.value.minor == minor
    {
      VersionRecognition(p, w, major, minor);
    }
    if r.Some? && r.value.state.ReqHttpMinor? {
      assert IsVersionOf(w, r.value.major, r.value.minor);
    }
  }

  /** The request line is complete exactly behind a version and its line end: LF, or CR and LF. */
  lemma RequestLineEnds(p: Parser, w: seq<byte>, e: seq<byte>)
    requires p.state.ReqHttpStart? && CR !in w && LF !in w && (|e| == 1 || (|e| == 2 && e[0] == CR))
    ensures var r := Follow(p, w + e);
            (r.Some? && r.value.state.HeaderFieldStart?) <==>
            (exists major, minor :: IsVersionOf(w, major, minor)) && (e == [LF] || e == [CR, LF])
  {
    hide CaseOf, IsVersionOf, Follow, OfRequest;
    IsAnyVersion(p, w);
    var r := Follow(p, w);
    if r.None? {
      NeverFollows(p, w, e);
    } else {
      StartIsOfRequest(p);
      StaysOfRequest(p, w);
      FollowJoin(p, w, r.value, e);
      EndIsRead(r.value, e);
    }
  }

  lemma StartIsOfRequest(p: Parser)
    ensures p.state.ReqHttpStart? ==> OfRequest(p.state)
  {
  }

  lemma {:induction false} NeverFollows(p: Parser, w: seq<byte>, e: seq<byte>)
    requires Follow(p, w).None?
    ensures Follow(p, w + e).None?
    decreases |e|
  {
    hide CaseOf;
    if e == [] {
      assert w + e == w;
    } else {
      assert (w + e)[..|w + e|-1] == w + e[..|e|-1];
      NeverFollows(p, w, e[..|e|-1]);
    }
  }

  lemma {:induction false} StaysOfRequest(p: Parser, w: seq<byte>)
    requires OfRequest(p.state) && CR !in w && LF !in w && Follow(p, w).Some?
    ensures OfRequest(Follow(p, w).value.state)
    decreases |w|
  {
    hide CaseOf;
    if w != [] {
      StaysOfRequest(p, w[..|w|-1]);
      OnlyBehindVersion(Follow(p, w[..|w|-1]).value, w[|w|-1]);
    }
  }

  lemma EndIsRead(q: Parser, e: seq<byte>)
    requires OfRequest(q.state) && (|e| == 1 || (|e| == 2 && e[0] == CR))
    ensures (Follow(q, e).Some? && Follow(q, e).value.state.HeaderFieldStart?) <==>
            q.state.ReqHttpMinor? && (e == [LF] || e == [CR, LF])
  {
    hide CaseOf;
    assert e[..0] == [] && Follow(q, []) == Some(q);
    var first := CaseOf(q, e[0]);
    if q.state.ReqHttpMinor? {
      VersionEnds(q);
      OnlyLineFeed(q.(state := ReqLineAlmostDone), LF);
    }
    if first.next.Advance? {
      OnlyBehindVersion(q, e[0]);
      FollowOne(q, e[0]);
      if |e| == 2 {
        assert e[..1] == [e[0]] && e == [e[0]] + [e[1]];
        if first.p.state.ReqLineAlmostDone? {
          OnlyLineFeed(first.p, e[1]);
        } else if CaseOf(first.p, e[1]).next.Advance? {
          OnlyBehindVersion(first.p, e[1]);
          NoVersionByLineEnd(q, CR);
        }
      } else {
        assert e == [e[0]];
      }
    } else if |e| == 2 {
      assert e[..1] == [e[0]];
      NeverFollows(q, [e[0]], [e[1]]);
    } else {
      assert e == [e[0]];
    }
  }

  lemma NoVersionByLineEnd(p: Parser, ch: byte)
    requires OfRequest(p.state) && (ch == CR || ch == LF) && CaseOf(p, ch).next.Advance?
    ensures !CaseOf(p, ch).p.state.ReqHttpMinor?
  {
    hide AddDigit;
  }
}
