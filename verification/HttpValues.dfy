/** What the values of Transfer-Encoding and Connection mean to the parser, in terms of strings. */
module HttpValues {
  import opened Common
  import opened HttpTypes
  import opened HttpCases
  import opened HttpLines
  import opened HttpAscii

  const COMMA: byte := 44

  // ---------- keywords in values ----------

  /** w is the keyword, in any case, with any number of spaces behind it. */
  predicate Says(w: seq<byte>, word: string) {
    |w| >= |word| && forall j | 0 <= j < |w| :: if j < |word| then Lower(w[j]) == word[j] as int else w[j] == SP
  }

  /** The same with plain characters: w is the keyword, with letters in any case, and with spaces
      behind it. */
  predicate IsWord(w: seq<byte>, word: string) {
    |w| >= |word| && forall j | 0 <= j < |w| :: if j < |word| then IsLetter(w[j], word[j]) else w[j] == 32
  }

  lemma SaysIsWord(w: seq<byte>, word: string)
    requires IsText(w) && forall j | 0 <= j < |word| :: 'a' <= word[j] <= 'z' || word[j] == '-'
    ensures Says(w, word) <==> IsWord(w, word)
  {
    hide Lower, IsLetter;
    forall j | 0 <= j < |w| ensures j < |word| ==> (Lower(w[j]) == word[j] as int <==> IsLetter(w[j], word[j])) {
      if j < |word| {
        LowerIsLetter(w[j], word[j]);
      }
    }
  }

  lemma WordTexts()
    ensures forall j | 0 <= j < |"chunked"| :: 'a' <= "chunked"[j] <= 'z'
    ensures forall j | 0 <= j < |"keep-alive"| :: 'a' <= "keep-alive"[j] <= 'z' || "keep-alive"[j] == '-'
    ensures forall j | 0 <= j < |"close"| :: 'a' <= "close"[j] <= 'z'
    ensures forall j | 0 <= j < |"upgrade"| :: 'a' <= "upgrade"[j] <= 'z'
  {
  }

  /** w is a beginning of the keyword, but not all of it. */
  predicate Begins(w: seq<byte>, word: string) {
    0 < |w| < |word| && forall j | 0 <= j < |w| :: Lower(w[j]) == word[j] as int
  }

  lemma BeginsSnoc(w: seq<byte>, ch: byte, word: string)
    ensures Begins(w + [ch], word) <==>
              |w| + 1 < |word| && (w == [] || Begins(w, word)) && Lower(ch) == word[|w|] as int
  {
    var v := w + [ch];
    if Begins(v, word) {
      forall j | 0 <= j < |w| ensures Lower(w[j]) == word[j] as int {
        assert v[j] == w[j];
      }
      assert v[|w|] == ch;
    }
  }

  lemma SaysSnoc(w: seq<byte>, ch: byte, word: string)
    requires |word| > 1
    ensures Says(w + [ch], word) <==>
              || (Says(w, word) && ch == SP)
              || (|w| + 1 == |word| && Begins(w, word) && Lower(ch) == word[|w|] as int)
  {
    var v := w + [ch];
    if Says(v, word) {
      forall j | 0 <= j < |w| ensures if j < |word| then Lower(w[j]) == word[j] as int else w[j] == SP {
        assert v[j] == w[j];
      }
      assert v[|w|] == ch;
    }
  }

  lemma FirstLetter(w: seq<byte>, word: string)
    requires word != "" && (Begins(w, word) || Says(w, word))
    ensures w != [] && Lower(w[0]) == word[0] as int
  {
  }

  /** Nothing is two keywords, or beginnings of them, that have different first letters. */
  lemma FirstLettersDiffer(w: seq<byte>, word: string, other: string)
    requires word != "" && other != "" && word[0] != other[0]
    ensures !((Begins(w, word) || Says(w, word)) && (Begins(w, other) || Says(w, other)))
  {
    if Begins(w, word) || Says(w, word) {
      FirstLetter(w, word);
    }
    if Begins(w, other) || Says(w, other) {
      FirstLetter(w, other);
    }
  }

  lemma BeginsIsNotAll(w: seq<byte>, word: string)
    ensures !(Begins(w, word) && Says(w, word))
  {
  }

  // ---------- Transfer-Encoding ----------

  function ChunkedState(w: seq<byte>): HeaderState {
    if Begins(w, "chunked") then MatchingTransferEncodingChunked
    else if Says(w, "chunked") then TransferEncodingChunked
    else General
  }

  /** What the parser knows after the characters w of the value. */
  predicate ReadsChunked(p: Parser, w: seq<byte>) {
    p.headerState == ChunkedState(w) && (Begins(w, "chunked") ==> p.index == |w| - 1)
  }

  lemma ChunkedNext(p: Parser, w: seq<byte>, ch: byte)
    requires ReadsChunked(p, w) && w != []
    ensures ReadsChunked(ValueNext(p, ch), w + [ch]) && ValueNext(p, ch).flags == p.flags
  {
    hide Begins, Says, Lower;
    BeginsSnoc(w, ch, "chunked");
    SaysSnoc(w, ch, "chunked");
    BeginsIsNotAll(w, "chunked");
    BeginsIsNotAll(w + [ch], "chunked");
    BeginsLength(w, "chunked");
  }

  lemma BeginsLength(w: seq<byte>, word: string)
    ensures Begins(w, word) ==> 0 < |w| < |word|
  {
  }

  lemma {:induction false} ChunkedRest(p: Parser, w: seq<byte>, v: seq<byte>)
    requires ReadsChunked(p, w) && w != []
    ensures ReadsChunked(Read(p, v), w + v) && Read(p, v).flags == p.flags
    decreases |v|
  {
    hide ReadsChunked, ValueNext;
    if v == [] {
      assert w + v == w;
    } else {
      ChunkedNext(p, w, v[0]);
      ChunkedRest(ValueNext(p, v[0]), w + [v[0]], v[1..]);
      assert w + [v[0]] + v[1..] == w + v;
    }
  }

  lemma ChunkedStart(p: Parser, ch: byte)
    requires p.headerState.TransferEncoding?
    ensures ReadsChunked(ValueStartCase(p, ch).p, [ch]) && ValueStartCase(p, ch).p.flags == p.flags
  {
    hide Begins, Says, Lower;
    BeginsSnoc([], ch, "chunked");
    SaysSnoc([], ch, "chunked");
    BeginsLength([], "chunked");
    NothingSaid("chunked");
    assert [] + [ch] == [ch];
  }

  lemma NothingSaid(word: string)
    requires word != ""
    ensures !Says([], word)
  {
  }

  /** F_CHUNKED is set exactly by a value of one line that is "chunked", in any case, with spaces
      behind it. */
  lemma TransferEncodingValue(p: Parser, pad: seq<byte>, first: Line, more: seq<Line>, ch: byte)
    requires p.state.HeaderValueDiscardWs? && p.headerState.TransferEncoding?
    requires IsPad(pad) && IsValue(first, more) && !IsBlank(ch)
    ensures var r := Passes(p, pad + (first.text + first.end) + Flat(more));
            && r.Some? && CaseOf(r.value, ch).p.state.HeaderFieldStart?
            && CaseOf(r.value, ch).p.flags ==
                 p.flags.(chunked := p.flags.chunked || (more == [] && IsWord(first.text, "chunked")))
  {
    hide CaseOf, Passes, Begins, Says, ValueStartCase, Read, Flat, IsWord;
    ChunkedIsWord(first.text);
    var v := first.text;
    NothingSaid("chunked");
    PassesAppend(p, pad + (v + first.end), Flat(more));
    if v == [] {
      EmptyLine(p, pad, first);
      FlatNothing();
      assert v + first.end == first.end;
      var q := p.(state := HeaderValueDiscardLws);
      PassesNothing(q);
      FlagsAreSet(q, ch);
    } else {
      FirstLine(p, pad, first);
      var q := ValueStartCase(p, v[0]).p;
      ChunkedStart(p, v[0]);
      ChunkedRest(q, [v[0]], v[1..]);
      assert [v[0]] + v[1..] == v;
      var r := Read(q, v[1..]).(state := HeaderValueLws);
      NoMoreIsHeard(r, more);
      FlagsAreSet(Passes(r, Flat(more)).value, ch);
      BeginsIsNotAll(v, "chunked");
    }
  }

  lemma ChunkedIsWord(w: seq<byte>)
    requires IsText(w)
    ensures Says(w, "chunked") <==> IsWord(w, "chunked")
  {
    WordTexts();
    SaysIsWord(w, "chunked");
  }

  lemma FlatNothing()
    ensures Flat([]) == []
  {
  }

  /** Lines that continue a value of which no token is to come are of no interest, and make what the
      value said so far be forgotten. */
  lemma {:induction false} NoMoreIsHeard(p: Parser, more: seq<Line>)
    requires p.state.HeaderValueLws? && AreContinued(more)
    requires IsBegun(p.headerState) && !p.headerState.MatchingConnectionTokenStart?
    ensures var r := Passes(p, Flat(more));
            && r.Some? && r.value.state.HeaderValueLws? && r.value.flags == p.flags
            && r.value.headerState == if more == [] then p.headerState else General
    decreases |more|
  {
    hide CaseOf, Passes, Read;
    if more == [] {
      PassesNothing(p);
    } else {
      var l := more[0];
      NextLine(p, l);
      GeneralStays(Continued(p), l.text[1..]);
      NoMoreIsHeard(Continued(p).(state := HeaderValueLws), more[1..]);
      PassesAppend(p, l.text + l.end, Flat(more[1..]));
    }
  }

  /** Once a value is of no interest, it stays so. */
  lemma {:induction false} GeneralStays(p: Parser, w: seq<byte>)
    requires p.headerState.General?
    ensures Read(p, w) == p
    decreases |w|
  {
    if w != [] {
      assert ValueNext(p, w[0]) == p;
      GeneralStays(p, w[1..]);
    }
    hide ValueNext;
  }

  // ---------- Connection ----------

  predicate BeginsKeyword(t: seq<byte>) { Begins(t, "keep-alive") || Begins(t, "close") || Begins(t, "upgrade") }

  /** The flags after the token t. */
  function Heard(f: Flags, t: seq<byte>): Flags {
    f.(keepAlive := f.keepAlive || Says(t, "keep-alive"),
       close := f.close || Says(t, "close"),
       connectionUpgrade := f.connectionUpgrade || Says(t, "upgrade"))
  }

  function HeardAll(f: Flags, ts: seq<seq<byte>>): Flags
    decreases |ts|
  {
    if ts == [] then f else HeardAll(Heard(f, ts[0]), ts[1..])
  }

  lemma {:induction false} HeardAllIs(f: Flags, ts: seq<seq<byte>>)
    ensures HeardAll(f, ts) ==
              f.(keepAlive := f.keepAlive || (exists t | t in ts :: Says(t, "keep-alive")),
                 close := f.close || (exists t | t in ts :: Says(t, "close")),
                 connectionUpgrade := f.connectionUpgrade || (exists t | t in ts :: Says(t, "upgrade")))
    decreases |ts|
  {
    hide Says;
    if ts != [] {
      HeardAllIs(Heard(f, ts[0]), ts[1..]);
      SomeSays(ts, "keep-alive");
      SomeSays(ts, "close");
      SomeSays(ts, "upgrade");
    }
  }

  lemma SomeSays(ts: seq<seq<byte>>, word: string)
    requires ts != []
    ensures (exists t | t in ts :: Says(t, word)) <==> Says(ts[0], word) || exists t | t in ts[1..] :: Says(t, word)
  {
    hide Says;
    assert ts == [ts[0]] + ts[1..];
    assert ts[0] in ts;
  }

  function TokenState(t: seq<byte>): HeaderState {
    if Begins(t, "keep-alive") then MatchingConnectionKeepAlive
    else if Begins(t, "close") then MatchingConnectionClose
    else if Begins(t, "upgrade") then MatchingConnectionUpgrade
    else if Says(t, "keep-alive") then ConnectionKeepAlive
    else if Says(t, "close") then ConnectionClose
    else if Says(t, "upgrade") then ConnectionUpgrade
    else MatchingConnectionToken
  }

  /** What the parser knows after the characters t of a token. */
  predicate InToken(p: Parser, t: seq<byte>) {
    p.headerState == TokenState(t) && (BeginsKeyword(t) ==> p.index == |t| - 1)
  }

  /** Where the token ends of which the first n characters have been read: at a comma, but not at
      one behind a beginning of a keyword, which is taken for a character that does not match. */
  function TokenEnd(v: seq<byte>, n: nat): (m: nat)
    requires 0 < n <= |v|
    ensures n <= m <= |v|
    decreases |v| - n
  {
    if n == |v| || (v[n] == COMMA && !BeginsKeyword(v[..n])) then n else TokenEnd(v, n + 1)
  }

  /** What is behind spaces; as the source compares lower-cased bytes, NUL counts as a space, and a
      tabulator does not. */
  function SkipSpaces(w: seq<byte>): (r: seq<byte>)
    ensures |r| <= |w|
  {
    if w != [] && Lower(w[0]) == SP then SkipSpaces(w[1..]) else w
  }

  /** The tokens of a value. The list ends where no token begins behind a comma. */
  function Tokens(v: seq<byte>): seq<seq<byte>>
    decreases |v|
  {
    if v == [] then []
    else
      var n := TokenEnd(v, 1);
      [v[..n]] +
      if n == |v| then []
      else
        var r := SkipSpaces(v[n + 1..]);
        if r == [] || StrictToken(Lower(r[0])) == 0 then [] else Tokens(r)
  }

  lemma KeywordsDiffer(t: seq<byte>)
    ensures var a, b, c := "keep-alive", "close", "upgrade";
            && !((Begins(t, a) || Says(t, a)) && (Begins(t, b) || Says(t, b)))
            && !((Begins(t, a) || Says(t, a)) && (Begins(t, c) || Says(t, c)))
            && !((Begins(t, b) || Says(t, b)) && (Begins(t, c) || Says(t, c)))
    ensures !(Begins(t, "keep-alive") && Says(t, "keep-alive"))
    ensures !(Begins(t, "close") && Says(t, "close")) && !(Begins(t, "upgrade") && Says(t, "upgrade"))
  {
    hide Begins, Says;
    FirstLettersDiffer(t, "keep-alive", "close");
    FirstLettersDiffer(t, "keep-alive", "upgrade");
    FirstLettersDiffer(t, "close", "upgrade");
    BeginsIsNotAll(t, "keep-alive");
    BeginsIsNotAll(t, "close");
    BeginsIsNotAll(t, "upgrade");
  }

  lemma KeywordsSnoc(t: seq<byte>, ch: byte, word: string)
    requires |word| > 1
    ensures Begins(t + [ch], word) <==>
              |t| + 1 < |word| && (t == [] || Begins(t, word)) && Lower(ch) == word[|t|] as int
    ensures Says(t + [ch], word) <==>
              || (Says(t, word) && ch == SP)
              || (|t| + 1 == |word| && Begins(t, word) && Lower(ch) == word[|t|] as int)
    ensures Begins(t, word) ==> 0 < |t| < |word|
  {
    BeginsSnoc(t, ch, word);
    SaysSnoc(t, ch, word);
  }

  /** A character that does not end the token. */
  lemma TokenNext(p: Parser, t: seq<byte>, ch: byte)
    requires InToken(p, t) && t != [] && (ch == COMMA ==> BeginsKeyword(t))
    ensures InToken(ValueNext(p, ch), t + [ch]) && ValueNext(p, ch).flags == p.flags
  {
    hide Begins, Says, Lower;
    KeywordsDiffer(t);
    KeywordsDiffer(t + [ch]);
    KeywordsSnoc(t, ch, "keep-alive");
    KeywordsSnoc(t, ch, "close");
    KeywordsSnoc(t, ch, "upgrade");
  }

  /** The comma that ends a token. */
  lemma TokenIsHeard(p: Parser, t: seq<byte>)
    requires InToken(p, t) && !BeginsKeyword(t)
    ensures ValueNext(p, COMMA) == p.(flags := Heard(p.flags, t), headerState := MatchingConnectionTokenStart, index := 0)
  {
    hide Begins, Says, Lower;
    KeywordsDiffer(t);
  }

  /** The end of the value. */
  lemma LastIsHeard(p: Parser, t: seq<byte>)
    requires InToken(p, t)
    ensures ValueFlags(p.flags, p.headerState) == Heard(p.flags, t)
  {
    hide Begins, Says;
    KeywordsDiffer(t);
  }

  lemma {:induction false} TokenIsRead(p: Parser, v: seq<byte>, n: nat)
    requires 0 < n <= |v| && InToken(p, v[..n])
    ensures var m := TokenEnd(v, n);
            && InToken(Read(p, v[n..m]), v[..m]) && Read(p, v[n..m]).flags == p.flags
            && (m < |v| ==> v[m] == COMMA && !BeginsKeyword(v[..m]))
    decreases |v| - n
  {
    hide InToken, ValueNext, BeginsKeyword;
    if n < |v| && !(v[n] == COMMA && !BeginsKeyword(v[..n])) {
      TokenNext(p, v[..n], v[n]);
      assert v[..n] + [v[n]] == v[..n + 1];
      TokenIsRead(ValueNext(p, v[n]), v, n + 1);
      var m := TokenEnd(v, n + 1);
      assert v[n..m][0] == v[n] && v[n..m][1..] == v[n + 1..m];
    }
  }

  lemma TokenStarts(p: Parser, ch: byte)
    requires p.headerState.MatchingConnectionTokenStart? && p.index == 0 && Lower(ch) != SP
    ensures var q := ValueNext(p, ch);
            && q.flags == p.flags
            && if StrictToken(Lower(ch)) != 0 then InToken(q, [ch]) else q.headerState.General?
  {
    FirstOfToken(ch);
    hide Begins, Says;
    assert Lower(ch) != TAB;
  }

  lemma FirstOfToken(ch: byte)
    ensures TokenState([ch]) == ConnectionToken(Lower(ch))
  {
    hide Begins, Says, Lower;
    assert [] + [ch] == [ch];
    KeywordsSnoc([], ch, "keep-alive");
    KeywordsSnoc([], ch, "close");
    KeywordsSnoc([], ch, "upgrade");
    NothingSaid("keep-alive");
    NothingSaid("close");
    NothingSaid("upgrade");
  }

  lemma {:induction false} SpacesAreSkipped(p: Parser, w: seq<byte>)
    requires p.headerState.MatchingConnectionTokenStart?
    ensures Read(p, w) == Read(p, SkipSpaces(w))
    decreases |w|
  {
    if w != [] && Lower(w[0]) == SP {
      assert ValueNext(p, w[0]) == p;
      SpacesAreSkipped(p, w[1..]);
    }
    hide ValueNext;
  }

  /** Reading a value from its first character on hears all its tokens. */
  lemma {:induction false} TokensAreHeard(p: Parser, v: seq<byte>)
    requires v != [] && InToken(p, v[..1])
    ensures var q := Read(p, v[1..]); ValueFlags(q.flags, q.headerState) == HeardAll(p.flags, Tokens(v))
    decreases |v|, 0
  {
    hide InToken, ValueNext, BeginsKeyword, ValueFlags, StrictToken, TokenEnd, Heard;
    var n := TokenEnd(v, 1);
    TokenIsRead(p, v, 1);
    var q := Read(p, v[1..n]);
    TokensUnfold(p.flags, v);
    if n == |v| {
      assert v[1..n] == v[1..] && v[..n] == v;
      LastIsHeard(q, v);
    } else {
      assert v[1..] == v[1..n] + v[n..];
      ReadAppend(p, v[1..n], v[n..]);
      TokenIsHeard(q, v[..n]);
      MoreIsHeard(ValueNext(q, COMMA), v[n + 1..]);
    }
  }

  /** What follows a comma. */
  lemma {:induction false} MoreIsHeard(p: Parser, w: seq<byte>)
    requires p.headerState.MatchingConnectionTokenStart? && p.index == 0
    ensures var q, r := Read(p, w), SkipSpaces(w);
            ValueFlags(q.flags, q.headerState) ==
              HeardAll(p.flags, if r == [] || StrictToken(Lower(r[0])) == 0 then [] else Tokens(r))
    decreases |w|, 1
  {
    hide InToken, ValueNext, StrictToken, TokenEnd, Tokens, Heard;
    var r := SkipSpaces(w);
    SpacesAreSkipped(p, w);
    SkippedAll(w);
    if r != [] {
      TokenStarts(p, r[0]);
      var q := ValueNext(p, r[0]);
      if StrictToken(Lower(r[0])) == 0 {
        GeneralStays(q, r[1..]);
      } else {
        assert r[..1] == [r[0]];
        TokensAreHeard(q, r);
      }
    }
  }

  lemma {:induction false} SkippedAll(w: seq<byte>)
    ensures var r := SkipSpaces(w); r != [] ==> Lower(r[0]) != SP
  {
    if w != [] && Lower(w[0]) == SP {
      SkippedAll(w[1..]);
    }
  }

  lemma TokensUnfold(f: Flags, v: seq<byte>)
    requires v != []
    ensures var n := TokenEnd(v, 1);
            if n == |v| then HeardAll(f, Tokens(v)) == Heard(f, v)
            else
              var r := SkipSpaces(v[n + 1..]);
              HeardAll(f, Tokens(v)) ==
                HeardAll(Heard(f, v[..n]), if r == [] || StrictToken(Lower(r[0])) == 0 then [] else Tokens(r))
  {
    hide StrictToken, TokenEnd, Heard, Lower;
    var n := TokenEnd(v, 1);
    if n == |v| {
      assert v[..n] == v && Tokens(v) == [v] && [v][1..] == [];
    } else {
      var r := SkipSpaces(v[n + 1..]);
      var more := if r == [] || StrictToken(Lower(r[0])) == 0 then [] else Tokens(r);
      assert Tokens(v) == [v[..n]] + more && ([v[..n]] + more)[1..] == more;
    }
  }

  // ---------- values of several lines ----------

  /** The tokens of v that a comma ends. */
  function Closed(v: seq<byte>): seq<seq<byte>>
    decreases |v|
  {
    if v == [] || TokenEnd(v, 1) == |v| then []
    else
      var n := TokenEnd(v, 1);
      var r := SkipSpaces(v[n + 1..]);
      [v[..n]] + if r == [] || StrictToken(Lower(r[0])) == 0 then [] else Closed(r)
  }

  /** Behind the last comma of v there are only spaces: a token is to come. */
  predicate Awaits(v: seq<byte>)
    decreases |v|
  {
    && v != [] && TokenEnd(v, 1) < |v|
    && var r := SkipSpaces(v[TokenEnd(v, 1) + 1..]);
       r == [] || (StrictToken(Lower(r[0])) != 0 && Awaits(r))
  }

  /** The tokens of v and the lines behind it. At the end of a line that is continued a token that
      no comma has ended is forgotten; the next line is heard if a token is to come. */
  function TokensOfLines(v: seq<byte>, more: seq<Line>): seq<seq<byte>>
    requires AreContinued(more)
    decreases |more|, 1
  {
    if more == [] then Tokens(v) else Closed(v) + if Awaits(v) then LaterTokens(more) else []
  }

  function LaterTokens(more: seq<Line>): seq<seq<byte>>
    requires AreContinued(more)
    decreases |more|, 0
  {
    if more == [] then []
    else
      var r := SkipSpaces(more[0].text[1..]);
      if r == [] then LaterTokens(more[1..])
      else if StrictToken(Lower(r[0])) == 0 then []
      else TokensOfLines(r, more[1..])
  }

  lemma HeardAppend(f: Flags, a: seq<seq<byte>>, b: seq<seq<byte>>)
    ensures HeardAll(f, a + b) == HeardAll(HeardAll(f, a), b)
    decreases |a|
  {
    hide Heard;
    if a == [] {
      assert a + b == b;
    } else {
      assert (a + b)[1..] == a[1..] + b;
      HeardAppend(Heard(f, a[0]), a[1..], b);
    }
  }

  lemma TokenStateIsBegun(t: seq<byte>)
    ensures IsBegun(TokenState(t)) && !TokenState(t).MatchingConnectionTokenStart?
  {
    hide Begins, Says;
  }

  /** What is known at the end of a line. */
  lemma {:induction false} ClosedAreHeard(p: Parser, v: seq<byte>)
    requires v != [] && InToken(p, v[..1])
    ensures var q := Read(p, v[1..]);
            && q.flags == HeardAll(p.flags, Closed(v)) && IsBegun(q.headerState)
            && (q.headerState.MatchingConnectionTokenStart? <==> Awaits(v))
    decreases |v|, 0
  {
    hide InToken, ValueNext, BeginsKeyword, StrictToken, TokenEnd, Heard, TokenState;
    var n := TokenEnd(v, 1);
    TokenIsRead(p, v, 1);
    var q := Read(p, v[1..n]);
    ClosedUnfold(p.flags, v);
    if n == |v| {
      assert v[1..n] == v[1..] && v[..n] == v;
      EndOfLine(q, v);
    } else {
      assert v[1..] == v[1..n] + v[n..];
      ReadAppend(p, v[1..n], v[n..]);
      TokenIsHeard(q, v[..n]);
      MoreClosed(ValueNext(q, COMMA), v[n + 1..]);
    }
  }

  lemma EndOfLine(p: Parser, v: seq<byte>)
    requires InToken(p, v)
    ensures IsBegun(p.headerState) && !p.headerState.MatchingConnectionTokenStart?
  {
    TokenStateIsBegun(v);
    hide TokenState;
  }

  lemma {:induction false} MoreClosed(p: Parser, w: seq<byte>)
    requires p.headerState.MatchingConnectionTokenStart? && p.index == 0
    ensures var q, r := Read(p, w), SkipSpaces(w);
            var heard := r != [] && StrictToken(Lower(r[0])) != 0;
            && q.flags == HeardAll(p.flags, if heard then Closed(r) else []) && IsBegun(q.headerState)
            && (q.headerState.MatchingConnectionTokenStart? <==> r == [] || (heard && Awaits(r)))
    decreases |w|, 1
  {
    hide InToken, ValueNext, StrictToken, TokenEnd, Closed, Awaits, Heard;
    var r := SkipSpaces(w);
    SpacesAreSkipped(p, w);
    SkippedAll(w);
    if r != [] {
      TokenStarts(p, r[0]);
      var q := ValueNext(p, r[0]);
      if StrictToken(Lower(r[0])) == 0 {
        GeneralStays(q, r[1..]);
      } else {
        assert r[..1] == [r[0]];
        ClosedAreHeard(q, r);
      }
    }
  }

  lemma ClosedUnfold(f: Flags, v: seq<byte>)
    requires v != []
    ensures var n := TokenEnd(v, 1);
            if n == |v| then HeardAll(f, Closed(v)) == f && !Awaits(v)
            else
              var r := SkipSpaces(v[n + 1..]);
              var heard := r != [] && StrictToken(Lower(r[0])) != 0;
              && HeardAll(f, Closed(v)) == HeardAll(Heard(f, v[..n]), if heard then Closed(r) else [])
              && (Awaits(v) <==> r == [] || (heard && Awaits(r)))
  {
    hide StrictToken, TokenEnd, Heard, Lower;
    var n := TokenEnd(v, 1);
    if n < |v| {
      var r := SkipSpaces(v[n + 1..]);
      var more := if r == [] || StrictToken(Lower(r[0])) == 0 then [] else Closed(r);
      assert Closed(v) == [v[..n]] + more && ([v[..n]] + more)[1..] == more;
    }
  }

  /** From the first character of a token to the end of the value. */
  lemma {:induction false} LinesAreHeard(p: Parser, v: seq<byte>, more: seq<Line>)
    requires v != [] && InToken(p, v[..1]) && AreContinued(more)
    ensures var r := Passes(Read(p, v[1..]).(state := HeaderValueLws), Flat(more));
            && r.Some? && r.value.state.HeaderValueLws?
            && ValueFlags(r.value.flags, r.value.headerState) == HeardAll(p.flags, TokensOfLines(v, more))
    decreases |more|, 1
  {
    hide InToken, Passes, Read, ValueFlags, Tokens, Closed, Awaits, HeardAll;
    var q := Read(p, v[1..]).(state := HeaderValueLws);
    if more == [] {
      TokensAreHeard(p, v);
      PassesNothing(q);
    } else {
      ClosedAreHeard(p, v);
      if Awaits(v) {
        LaterAreHeard(q, more);
        HeardAppend(p.flags, Closed(v), LaterTokens(more));
      } else {
        NoMoreIsHeard(q, more);
        GeneralSays(q.flags);
        assert Closed(v) + [] == Closed(v);
      }
    }
  }

  lemma GeneralSays(f: Flags)
    ensures ValueFlags(f, General) == f && ValueFlags(f, MatchingConnectionTokenStart) == f
  {
  }

  lemma {:induction false} LaterAreHeard(p: Parser, more: seq<Line>)
    requires p.state.HeaderValueLws? && p.headerState.MatchingConnectionTokenStart? && AreContinued(more)
    ensures var r := Passes(p, Flat(more));
            && r.Some? && r.value.state.HeaderValueLws?
            && ValueFlags(r.value.flags, r.value.headerState) == HeardAll(p.flags, LaterTokens(more))
    decreases |more|, 0
  {
    hide InToken, Passes, Read, ValueFlags, TokensOfLines, Heard, ValueNext, StrictToken;
    GeneralSays(p.flags);
    if more == [] {
      PassesNothing(p);
    } else {
      var l := more[0];
      NextLine(p, l);
      PassesAppend(p, l.text + l.end, Flat(more[1..]));
      var q, r := Continued(p), SkipSpaces(l.text[1..]);
      SpacesAreSkipped(q, l.text[1..]);
      SkippedAll(l.text[1..]);
      if r == [] {
        ReadNothing(q);
        LaterAreHeard(q.(state := HeaderValueLws), more[1..]);
      } else {
        TokenStarts(q, r[0]);
        ReadOne(q, r);
        var n := ValueNext(q, r[0]);
        if StrictToken(Lower(r[0])) == 0 {
          GeneralStays(n, r[1..]);
          NoMoreIsHeard(n.(state := HeaderValueLws), more[1..]);
        } else {
          assert r[..1] == [r[0]];
          LinesAreHeard(n, r, more[1..]);
        }
      }
    }
  }

  lemma ReadNothing(p: Parser)
    ensures Read(p, []) == p
  {
  }

  lemma ReadOne(p: Parser, w: seq<byte>)
    requires w != []
    ensures Read(p, w) == Read(ValueNext(p, w[0]), w[1..])
  {
  }

  predicate AreTexts(ts: seq<seq<byte>>) { forall i | 0 <= i < |ts| :: IsText(ts[i]) }

  lemma {:induction false} SkippedIsText(w: seq<byte>)
    requires IsText(w)
    ensures IsText(SkipSpaces(w))
  {
    if w != [] && Lower(w[0]) == SP {
      SkippedIsText(w[1..]);
    }
  }

  lemma {:induction false} TokensAreTexts(v: seq<byte>)
    requires IsText(v)
    ensures AreTexts(Tokens(v)) && AreTexts(Closed(v))
    decreases |v|
  {
    hide TokenEnd, StrictToken;
    if v != [] {
      var n := TokenEnd(v, 1);
      if n < |v| {
        SkippedIsText(v[n + 1..]);
        TokensAreTexts(SkipSpaces(v[n + 1..]));
      }
    }
  }

  lemma {:induction false} AllTokensAreTexts(v: seq<byte>, more: seq<Line>)
    requires IsText(v) && AreContinued(more)
    ensures AreTexts(TokensOfLines(v, more)) && AreTexts(LaterTokens(more))
    decreases |more|
  {
    hide Tokens, Closed, Awaits, StrictToken, SkipSpaces;
    TokensAreTexts(v);
    if more != [] {
      assert IsContinued(more[0]);
      SkippedIsText(more[0].text[1..]);
      AllTokensAreTexts(SkipSpaces(more[0].text[1..]), more[1..]);
    }
  }

  lemma AnyWord(v: seq<byte>, more: seq<Line>)
    requires IsText(v) && AreContinued(more)
    ensures var ts := TokensOfLines(v, more);
            && ((exists t | t in ts :: Says(t, "keep-alive")) <==> exists t | t in ts :: IsWord(t, "keep-alive"))
            && ((exists t | t in ts :: Says(t, "close")) <==> exists t | t in ts :: IsWord(t, "close"))
            && ((exists t | t in ts :: Says(t, "upgrade")) <==> exists t | t in ts :: IsWord(t, "upgrade"))
  {
    var ts := TokensOfLines(v, more);
    AllTokensAreTexts(v, more);
    WordTexts();
    forall t | t in ts
      ensures Says(t, "keep-alive") <==> IsWord(t, "keep-alive")
      ensures Says(t, "close") <==> IsWord(t, "close")
      ensures Says(t, "upgrade") <==> IsWord(t, "upgrade")
    {
      SaysIsWord(t, "keep-alive");
      SaysIsWord(t, "close");
      SaysIsWord(t, "upgrade");
    }
    hide Says, IsWord, TokensOfLines;
  }

  /** The flags of Connection are set exactly by the tokens of its value that are keep-alive, close or
      upgrade, in any case, with spaces behind them. */
  lemma ConnectionValue(p: Parser, pad: seq<byte>, first: Line, more: seq<Line>, ch: byte)
    requires p.state.HeaderValueDiscardWs? && p.headerState.Connection?
    requires IsPad(pad) && IsValue(first, more) && !IsBlank(ch)
    ensures var r, ts := Passes(p, pad + (first.text + first.end) + Flat(more)), TokensOfLines(first.text, more);
            && r.Some? && CaseOf(r.value, ch).p.state.HeaderFieldStart?
            && CaseOf(r.value, ch).p.flags ==
                 p.flags.(keepAlive := p.flags.keepAlive || (exists t | t in ts :: IsWord(t, "keep-alive")),
                          close := p.flags.close || (exists t | t in ts :: IsWord(t, "close")),
                          connectionUpgrade := p.flags.connectionUpgrade || (exists t | t in ts :: IsWord(t, "upgrade")))
  {
    hide CaseOf, Passes, Says, IsWord, Read, Tokens, InToken, TokensOfLines, HeardAll, ValueFlags;
    var v := first.text;
    AnyWord(v, more);
    HeardAllIs(p.flags, TokensOfLines(v, more));
    PassesAppend(p, pad + (v + first.end), Flat(more));
    if v == [] {
      EmptyLine(p, pad, first);
      assert v + first.end == first.end;
      var q := p.(state := HeaderValueDiscardLws);
      PassesNothing(q);
      FlagsAreSet(q, ch);
      NoTokens(p);
    } else {
      FirstLine(p, pad, first);
      var q := ValueStartCase(p, v[0]).p;
      FirstToken(p, v[0]);
      assert v[..1] == [v[0]];
      LinesAreHeard(q, v, more);
      FlagsAreSet(Passes(Read(q, v[1..]).(state := HeaderValueLws), Flat(more)).value, ch);
    }
  }

  lemma NoTokens(p: Parser)
    requires p.headerState.Connection?
    ensures TokensOfLines([], []) == [] && HeardAll(p.flags, []) == p.flags
    ensures ValueFlags(p.flags, p.headerState) == p.flags
  {
  }

  lemma FirstToken(p: Parser, ch: byte)
    requires p.headerState.Connection?
    ensures InToken(ValueStartCase(p, ch).p, [ch]) && ValueStartCase(p, ch).p.flags == p.flags
  {
    FirstOfToken(ch);
    hide TokenState, BeginsKeyword;
  }

  // ---------- lists as they are meant, and others ----------

  /** A list: its tokens with a separator between them. */
  function Join(ts: seq<seq<byte>>, sep: seq<byte>): seq<byte>
    requires ts != []
  {
    if |ts| == 1 then ts[0] else ts[0] + (sep + Join(ts[1..], sep))
  }

  /** A comma and spaces. */
  predicate IsSeparator(sep: seq<byte>) { sep != [] && sep[0] == COMMA && forall i | 0 < i < |sep| :: sep[i] == SP }

  /** Tokens without commas, of which those behind the first begin with a token character, and those
      before the last are not beginnings of a keyword. */
  predicate IsList(ts: seq<seq<byte>>) {
    && (forall i | 0 <= i < |ts| :: ts[i] != [] && COMMA !in ts[i])
    && (forall i | 0 < i < |ts| :: StrictToken(Lower(ts[i][0])) != 0)
    && (forall i | 0 <= i < |ts| - 1 :: !BeginsKeyword(ts[i]))
  }

  /** A list of words is heard as the words it was made of exactly if it is such a list. */
  lemma ListIsHeard(ts: seq<seq<byte>>, sep: seq<byte>)
    requires ts != [] && (forall i | 0 <= i < |ts| :: ts[i] != [] && COMMA !in ts[i]) && IsSeparator(sep)
    ensures Tokens(Join(ts, sep)) == ts <==> IsList(ts)
  {
    hide Tokens, Join, IsList;
    if IsList(ts) {
      ListHeard(ts, sep);
    }
    if Tokens(Join(ts, sep)) == ts {
      HeardIsList(ts, sep);
    }
  }

  lemma {:induction false} ListHeard(ts: seq<seq<byte>>, sep: seq<byte>)
    requires ts != [] && IsList(ts) && IsSeparator(sep)
    ensures Tokens(Join(ts, sep)) == ts
    decreases |ts|
  {
    hide BeginsKeyword, StrictToken, Lower, TokenEnd, Tokens;
    var t, v := ts[0], Join(ts, sep);
    if |ts| == 1 {
      EndOfFirst(t, []);
      assert t + [] == t;
      TokensOf(t, []);
    } else {
      var more := Join(ts[1..], sep);
      assert ts[1..][0] == ts[1];
      ListHeard(ts[1..], sep);
      EndOfFirst(t, sep + more);
      TokensOf(t, sep + more);
      assert (sep + more)[1..] == sep[1..] + more;
      JoinBegins(ts[1..], sep);
      LowerSpace(more[0]);
      SpacesGone(sep[1..], more);
      assert [t] + ts[1..] == ts;
    }
  }

  /** A word behind a comma that is heard begins with a token character, and the word before it was
      not swallowed. */
  lemma {:induction false} HeardIsList(ts: seq<seq<byte>>, sep: seq<byte>)
    requires ts != [] && (forall i | 0 <= i < |ts| :: ts[i] != [] && COMMA !in ts[i]) && IsSeparator(sep)
    requires Tokens(Join(ts, sep)) == ts
    ensures IsList(ts)
    decreases |ts|
  {
    hide BeginsKeyword, StrictToken, Lower, TokenEnd, Tokens;
    if |ts| > 1 {
      var t, more := ts[0], Join(ts[1..], sep);
      FirstHeard(t, sep + more);
      TokensOf(t, sep + more);
      assert (sep + more)[1..] == sep[1..] + more;
      var r := SkipSpaces(sep[1..] + more);
      SkippedAll(sep[1..] + more);
      assert r != [] && StrictToken(Lower(r[0])) != 0 && ts[1..] == Tokens(r);
      FirstOfTokens(r);
      JoinBegins(ts[1..], sep);
      LowerSpace(more[0]);
      SpacesGone(sep[1..], more);
      HeardIsList(ts[1..], sep);
      forall i | 0 <= i < |ts| - 1 ensures !BeginsKeyword(ts[i]) {
        assert i > 0 ==> ts[i] == ts[1..][i - 1];
      }
      forall i | 0 < i < |ts| ensures StrictToken(Lower(ts[i][0])) != 0 {
        assert ts[i] == ts[1..][i - 1];
      }
    }
  }

  lemma FirstOfTokens(v: seq<byte>)
    requires v != []
    ensures Tokens(v) != [] && Tokens(v)[0] == v[..TokenEnd(v, 1)] && Tokens(v)[0][0] == v[0]
  {
    hide TokenEnd, StrictToken;
  }

  lemma {:induction false} TokenEndsAtComma(v: seq<byte>, n: nat)
    requires 0 < n <= |v|
    ensures var m := TokenEnd(v, n); m < |v| ==> !BeginsKeyword(v[..m])
    decreases |v| - n
  {
    hide BeginsKeyword;
    if n < |v| && !(v[n] == COMMA && !BeginsKeyword(v[..n])) {
      TokenEndsAtComma(v, n + 1);
    }
  }

  lemma FirstHeard(t: seq<byte>, w: seq<byte>)
    requires t != [] && w != [] && Tokens(t + w) != [] && Tokens(t + w)[0] == t
    ensures TokenEnd(t + w, 1) == |t| && !BeginsKeyword(t)
  {
    hide TokenEnd, Tokens, BeginsKeyword;
    FirstOfTokens(t + w);
    TokenEndsAtComma(t + w, 1);
    assert (t + w)[..|t|] == t;
  }

  lemma JoinBegins(ts: seq<seq<byte>>, sep: seq<byte>)
    requires ts != [] && ts[0] != []
    ensures Join(ts, sep) != [] && Join(ts, sep)[0] == ts[0][0]
  {
  }

  lemma LowerSpace(ch: byte)
    ensures Lower(ch) == SP ==> StrictToken(Lower(ch)) == 0
    ensures Lower(SP) == SP
  {
  }

  lemma {:induction false} SpacesGone(spaces: seq<byte>, w: seq<byte>)
    requires (forall i | 0 <= i < |spaces| :: spaces[i] == SP) && Lower(SP) == SP && w != [] && Lower(w[0]) != SP
    ensures SkipSpaces(spaces + w) == w
    decreases |spaces|
  {
    hide Lower;
    if spaces == [] {
      assert spaces + w == w;
    } else {
      assert (spaces + w)[1..] == spaces[1..] + w;
      SpacesGone(spaces[1..], w);
    }
  }

  lemma TokensOf(t: seq<byte>, w: seq<byte>)
    requires t != [] && TokenEnd(t + w, 1) == |t|
    ensures Tokens(t + w) ==
              if w == [] then [t]
              else
                var r := SkipSpaces(w[1..]);
                [t] + if r == [] || StrictToken(Lower(r[0])) == 0 then [] else Tokens(r)
  {
    hide TokenEnd, StrictToken, Lower, SkipSpaces;
    assert (t + w)[..|t|] == t;
    if w != [] {
      assert (t + w)[|t| + 1..] == w[1..];
    }
  }

  lemma EndOfFirst(t: seq<byte>, w: seq<byte>)
    requires t != [] && COMMA !in t && (w != [] ==> w[0] == COMMA && !BeginsKeyword(t))
    ensures TokenEnd(t + w, 1) == |t|
  {
    EndFrom(t, w, 1);
  }

  lemma {:induction false} EndFrom(t: seq<byte>, w: seq<byte>, n: nat)
    requires 0 < n <= |t| && COMMA !in t && (w != [] ==> w[0] == COMMA && !BeginsKeyword(t))
    ensures TokenEnd(t + w, n) == |t|
    decreases |t| - n
  {
    hide BeginsKeyword;
    if n < |t| {
      assert (t + w)[n] == t[n] && t[n] in t;
      EndFrom(t, w, n + 1);
    } else if w != [] {
      assert (t + w)[..n] == t;
    }
  }

  lemma {:induction false} NoCommaNoEnd(v: seq<byte>, n: nat)
    requires 0 < n <= |v| && forall i | n <= i < |v| :: v[i] != COMMA
    ensures TokenEnd(v, n) == |v|
    decreases |v| - n
  {
    hide BeginsKeyword;
    if n < |v| {
      NoCommaNoEnd(v, n + 1);
    }
  }

  lemma {:induction false} CommaIsSwallowed(t: seq<byte>, w: seq<byte>, n: nat)
    requires 0 < n <= |t| && BeginsKeyword(t) && COMMA !in t && COMMA !in w
    ensures TokenEnd(t + [COMMA] + w, n) == |t| + 1 + |w|
    decreases |t| - n
  {
    hide BeginsKeyword;
    var v := t + [COMMA] + w;
    if n < |t| {
      assert v[n] == t[n] && t[n] in t;
      CommaIsSwallowed(t, w, n + 1);
    } else {
      assert v[..n] == t;
      forall i | n + 1 <= i < |v| ensures v[i] != COMMA {
        assert v[i] == w[i - n - 1] && w[i - n - 1] in w;
      }
      NoCommaNoEnd(v, n + 1);
    }
  }

  /** Other lists are read otherwise. A comma right behind a beginning of a keyword does not end the
      token; so what follows is not heard. */
  lemma Swallowed(t: seq<byte>, w: seq<byte>)
    requires BeginsKeyword(t) && COMMA !in t && COMMA !in w
    ensures Tokens(t + [COMMA] + w) == [t + [COMMA] + w]
  {
    hide BeginsKeyword, TokenEnd;
    var v := t + [COMMA] + w;
    assert t != [] by { NotEmpty(t); }
    CommaIsSwallowed(t, w, 1);
    assert v[..|v|] == v;
  }

  lemma NotEmpty(t: seq<byte>)
    requires BeginsKeyword(t)
    ensures t != []
  {
  }

  /** No token is heard behind a comma that is followed by another one, by a tabulator, or by any
      other byte that is neither a space nor begins a token. */
  lemma Unheard(t: seq<byte>, w: seq<byte>)
    requires t != [] && COMMA !in t && !BeginsKeyword(t)
    requires w != [] && Lower(w[0]) != SP && StrictToken(Lower(w[0])) == 0
    ensures Tokens(t + ([COMMA] + w)) == [t]
  {
    hide BeginsKeyword, TokenEnd, StrictToken, Lower;
    EndOfFirst(t, [COMMA] + w);
    TokensOf(t, [COMMA] + w);
    assert ([COMMA] + w)[1..] == w;
  }

  /** So a connection is not closed by "k,close". */
  lemma CloseSwallowed()
    ensures forall t | t in Tokens(['k' as int] + [COMMA] + CLOSE) :: !Says(t, "close")
  {
    hide Tokens, BeginsKeyword, Says;
    OneLetter('k' as int);
    Swallowed(['k' as int], CLOSE);
    NotClose(['k' as int] + [COMMA] + CLOSE);
  }

  /** And neither by "x,,close", nor by "x,close" with a tabulator behind the comma. */
  lemma CloseUnheard(b: byte)
    requires b == COMMA || b == TAB
    ensures forall t | t in Tokens(['x' as int] + ([COMMA] + ([b] + CLOSE))) :: !Says(t, "close")
  {
    hide Tokens, BeginsKeyword, Says;
    OneLetter('x' as int);
    Unheard(['x' as int], [b] + CLOSE);
    NotClose(['x' as int]);
  }

  lemma NotClose(t: seq<byte>)
    requires t != [] && (t[0] == 'k' as int || t[0] == 'x' as int)
    ensures !Says(t, "close")
  {
    if Says(t, "close") {
      FirstLetter(t, "close");
    }
  }

  /** And a line without commas that is continued says nothing, so "close" does not either. */
  lemma Forgotten(v: seq<byte>, more: seq<Line>)
    requires v != [] && COMMA !in v && more != [] && AreContinued(more)
    ensures TokensOfLines(v, more) == []
  {
    NoCommaNoEnd(v, 1);
    hide TokenEnd;
  }

  const CLOSE: seq<byte> := ['c' as int, 'l' as int, 'o' as int, 's' as int, 'e' as int]

  lemma OneLetter(ch: byte)
    ensures BeginsKeyword([ch]) <==> Lower(ch) == 'k' as int || Lower(ch) == 'c' as int || Lower(ch) == 'u' as int
  {
    assert [] + [ch] == [ch];
    KeywordsSnoc([], ch, "keep-alive");
    KeywordsSnoc([], ch, "close");
    KeywordsSnoc([], ch, "upgrade");
  }
}
