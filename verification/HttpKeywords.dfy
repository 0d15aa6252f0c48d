/** The keyword automata and the number readers of the parser, against plain strings and
    plain numbers. */
module HttpKeywords {
  import opened Common
  import opened HttpTypes
  import opened HttpCases
  import opened HttpMachine
  import opened HttpAscii
  import HttpSplit

  /** The parser after the bytes w, callbacks aside, as long as every case ends with `break`. */
  function Follow(p: Parser, w: seq<byte>): Option<Parser> {
    if w == [] then Some(p)
    else match Follow(p, w[..|w|-1])
      case None => None
      case Some(q) =>
        var k := CaseOf(q, w[|w|-1]);
        if k.next.Advance? then Some(k.p) else None
  }

  lemma FollowSnoc(p: Parser, w: seq<byte>, ch: byte)
    ensures Follow(p, w + [ch]) ==
              match Follow(p, w)
              case None => None
              case Some(q) => var k := CaseOf(q, ch); if k.next.Advance? then Some(k.p) else None
  {
    assert (w + [ch])[..|w|] == w;
  }

  /** Follow is what a run does when no callback objects. */
  lemma {:induction false} FollowIsRun(policy: Policy, m: Machine, w: seq<byte>)
    requires forall t :: policy(t) == Answer(0, false)
    requires Follow(m.p, w).Some?
    ensures var r := Run(policy, m, w); r.outcome.Running? && r.m.p == Follow(m.p, w).value
    decreases |w|
  {
    hide Step, CaseOf;
    if w != [] {
      var n := |w| - 1;
      FollowIsRun(policy, m, w[..n]);
      HttpSplit.RunAppend(policy, m, w[..n], [w[n]]);
      assert w[..n] + [w[n]] == w;
      var r := Run(policy, m, w[..n]);
      StepAdvances(policy, r.m, w[n]);
      assert [w[n]][1..] == [];
    }
  }

  lemma StepAdvances(policy: Policy, m: Machine, ch: byte)
    requires forall t :: policy(t) == Answer(0, false)
    requires CaseOf(m.p, ch).next.Advance?
    ensures var (n, outcome) := Step(policy, m, ch); outcome.Running? && n.p == CaseOf(m.p, ch).p
  {
    hide CaseOf, Emit;
    assert Count(m).p == m.p;
  }

  // ---------- header names ----------

  /** w begins with the keyword, or is a beginning of it; behind it there are only spaces. */
  predicate Matches(w: seq<byte>, word: string) {
    forall j :: 0 <= j < |w| ==> Token(w[j]) == if j < |word| then word[j] as int else SP
  }

  /** The name w is the keyword, in any case and with spaces behind it. */
  predicate Named(w: seq<byte>, word: string) { Matches(w, word) && |w| >= |word| }

  predicate NoKeyword(w: seq<byte>) {
    && !Matches(w, "connection") && !Matches(w, "proxy-connection") && !Matches(w, "content-length")
    && !Matches(w, "transfer-encoding") && !Matches(w, "upgrade")
  }

  /** What the header state and index say about the name read so far. */
  predicate Recognised(w: seq<byte>, h: HeaderState, i: nat) {
    match h
    case General => NoKeyword(w)
    case C => |w| == 1 && i == 0 && Matches(w, "con")
    case CO => |w| == 2 && i == 1 && Matches(w, "con")
    case CON => |w| == 3 && i == 2 && Matches(w, "con")
    case MatchingConnection => |w| == i + 1 && 4 <= |w| < 10 && Matches(w, "connection")
    case MatchingProxyConnection => |w| == i + 1 && |w| < 16 && Matches(w, "proxy-connection")
    case MatchingContentLength => |w| == i + 1 && 4 <= |w| < 14 && Matches(w, "content-length")
    case MatchingTransferEncoding => |w| == i + 1 && |w| < 17 && Matches(w, "transfer-encoding")
    case MatchingUpgrade => |w| == i + 1 && |w| < 7 && Matches(w, "upgrade")
    case Connection => Named(w, "connection") || Named(w, "proxy-connection")
    case ContentLength => Named(w, "content-length")
    case TransferEncoding => Named(w, "transfer-encoding")
    case Upgrade => Named(w, "upgrade")
    case _ => false
  }

  lemma MatchesSnoc(w: seq<byte>, ch: byte, word: string)
    ensures Matches(w + [ch], word) <==>
              Matches(w, word) && Token(ch) == if |w| < |word| then word[|w|] as int else SP
  {
    var v := w + [ch];
    if Matches(v, word) {
      forall j | 0 <= j < |w| ensures Token(w[j]) == if j < |word| then word[j] as int else SP {
        assert v[j] == w[j];
      }
      assert v[|w|] == ch;
    }
  }

  /** Two keywords that differ at position j cannot both be matched by more than j characters. */
  lemma Apart(w: seq<byte>, word: string, other: string, j: nat)
    requires j < |w| && j < |word| && j < |other| && word[j] != other[j]
    ensures !(Matches(w, word) && Matches(w, other))
  {
    assert word[j] as int != other[j] as int;
  }

  lemma KeywordsApart(w: seq<byte>)
    requires w != []
    ensures |w| >= 1 && Matches(w, "con") ==>
              !Matches(w, "proxy-connection") && !Matches(w, "transfer-encoding") && !Matches(w, "upgrade")
    ensures Matches(w, "connection") ==>
              !Matches(w, "proxy-connection") && !Matches(w, "transfer-encoding") && !Matches(w, "upgrade")
    ensures Matches(w, "content-length") ==>
              !Matches(w, "proxy-connection") && !Matches(w, "transfer-encoding") && !Matches(w, "upgrade")
    ensures |w| >= 4 ==> !(Matches(w, "connection") && Matches(w, "content-length"))
    ensures Matches(w, "proxy-connection") ==> !Matches(w, "transfer-encoding") && !Matches(w, "upgrade")
    ensures Matches(w, "transfer-encoding") ==> !Matches(w, "upgrade")
  {
    hide Matches;
    Apart(w, "con", "proxy-connection", 0);
    Apart(w, "con", "transfer-encoding", 0);
    Apart(w, "con", "upgrade", 0);
    Apart(w, "connection", "proxy-connection", 0);
    Apart(w, "connection", "transfer-encoding", 0);
    Apart(w, "connection", "upgrade", 0);
    Apart(w, "content-length", "proxy-connection", 0);
    Apart(w, "content-length", "transfer-encoding", 0);
    Apart(w, "content-length", "upgrade", 0);
    Apart(w, "proxy-connection", "transfer-encoding", 0);
    Apart(w, "proxy-connection", "upgrade", 0);
    Apart(w, "transfer-encoding", "upgrade", 0);
    if |w| >= 4 {
      Apart(w, "connection", "content-length", 3);
    }
  }

  lemma PrefixCon(w: seq<byte>)
    requires |w| <= 3
    ensures Matches(w, "con") <==> Matches(w, "connection")
    ensures Matches(w, "con") <==> Matches(w, "content-length")
  {
    assert "connection"[..3] == "con" && "content-length"[..3] == "con";
    assert forall j | 0 <= j < 3 :: "connection"[j] == "con"[j] && "content-length"[j] == "con"[j];
  }

  lemma RecogniseFirst(ch: byte)
    requires Token(ch) != 0
    ensures Recognised([ch], FieldFirst(Token(ch)), 0)
  {
    hide Token, Matches;
    EmptyMatches("connection");
    EmptyMatches("proxy-connection");
    EmptyMatches("content-length");
    EmptyMatches("transfer-encoding");
    EmptyMatches("upgrade");
    EmptyMatches("con");
    assert [] + [ch] == [ch];
    SnocAll([], ch);
  }

  lemma EmptyMatches(word: string)
    ensures Matches([], word)
  {
  }

  lemma RecogniseNext(w: seq<byte>, h: HeaderState, i: nat, ch: byte)
    requires w != [] && Recognised(w, h, i) && Token(ch) != 0
    ensures var (h', i') := FieldNext(h, i, Token(ch), ch); Recognised(w + [ch], h', i')
  {
    hide Token, Matches, Recognised, FieldNext;
    if h.General? || h.Connection? || h.ContentLength? || h.TransferEncoding? || h.Upgrade? {
      RecogniseDone(w, h, i, ch);
    } else if h.C? || h.CO? || h.CON? {
      RecogniseCon(w, h, i, ch);
    } else {
      RecogniseMore(w, h, i, ch);
    }
  }

  /** Once a name is a keyword, or none, only spaces leave it one. */
  lemma RecogniseDone(w: seq<byte>, h: HeaderState, i: nat, ch: byte)
    requires w != [] && Recognised(w, h, i) && Token(ch) != 0
    requires h.General? || h.Connection? || h.ContentLength? || h.TransferEncoding? || h.Upgrade?
    ensures var (h', i') := FieldNext(h, i, Token(ch), ch); Recognised(w + [ch], h', i')
  {
    hide Token, Matches;
    KeywordsApart(w);
    SnocAll(w, ch);
    SpaceToken(ch);
  }

  lemma RecogniseCon(w: seq<byte>, h: HeaderState, i: nat, ch: byte)
    requires w != [] && Recognised(w, h, i) && Token(ch) != 0 && (h.C? || h.CO? || h.CON?)
    ensures var (h', i') := FieldNext(h, i, Token(ch), ch); Recognised(w + [ch], h', i')
  {
    hide Token, Matches;
    KeywordsApart(w);
    SnocAll(w, ch);
    PrefixCon(w);
    if |w| <= 2 {
      PrefixCon(w + [ch]);
    }
  }

  /** While a name is being compared with one keyword, it is a prefix of it. */
  lemma RecogniseMore(w: seq<byte>, h: HeaderState, i: nat, ch: byte)
    requires w != [] && Recognised(w, h, i) && Token(ch) != 0
    requires !h.General? && !h.Connection? && !h.ContentLength? && !h.TransferEncoding? && !h.Upgrade?
    requires !h.C? && !h.CO? && !h.CON?
    ensures var (h', i') := FieldNext(h, i, Token(ch), ch); Recognised(w + [ch], h', i')
  {
    hide Token, Matches;
    KeywordsApart(w);
    SnocAll(w, ch);
    if |w| <= 3 {
      PrefixCon(w);
    }
  }

  lemma SnocAll(w: seq<byte>, ch: byte)
    ensures Matches(w + [ch], "con") <==>
              Matches(w, "con") && Token(ch) == if |w| < 3 then "con"[|w|] as int else SP
    ensures Matches(w + [ch], "connection") <==>
              Matches(w, "connection") && Token(ch) == if |w| < 10 then "connection"[|w|] as int else SP
    ensures Matches(w + [ch], "proxy-connection") <==>
              Matches(w, "proxy-connection") && Token(ch) == if |w| < 16 then "proxy-connection"[|w|] as int else SP
    ensures Matches(w + [ch], "content-length") <==>
              Matches(w, "content-length") && Token(ch) == if |w| < 14 then "content-length"[|w|] as int else SP
    ensures Matches(w + [ch], "transfer-encoding") <==>
              Matches(w, "transfer-encoding") && Token(ch) == if |w| < 17 then "transfer-encoding"[|w|] as int else SP
    ensures Matches(w + [ch], "upgrade") <==>
              Matches(w, "upgrade") && Token(ch) == if |w| < 7 then "upgrade"[|w|] as int else SP
  {
    hide Matches, Token;
    MatchesSnoc(w, ch, "con");
    MatchesSnoc(w, ch, "connection");
    MatchesSnoc(w, ch, "proxy-connection");
    MatchesSnoc(w, ch, "content-length");
    MatchesSnoc(w, ch, "transfer-encoding");
    MatchesSnoc(w, ch, "upgrade");
  }

  lemma SpaceToken(ch: byte)
    ensures Token(ch) == SP <==> ch == SP
  {
  }

  /** A header name, with the spaces that the parser lets through. */
  predicate IsName(w: seq<byte>) { w != [] && forall i | 0 <= i < |w| :: IsTokenByte(w[i]) || w[i] == 32 }

  /** The name w is the keyword, with letters in any case, and with spaces behind it. */
  predicate IsKeyword(w: seq<byte>, word: string) {
    |w| >= |word| && forall j | 0 <= j < |w| :: if j < |word| then IsLetter(w[j], word[j]) else w[j] == 32
  }

  lemma NameBytes(ch: byte)
    ensures Token(ch) != 0 <==> IsTokenByte(ch) || ch == 32
  {
    TokenBytes(ch);
    hide StrictToken, IsTokenByte;
  }

  lemma NamedIs(w: seq<byte>, word: string)
    requires forall j | 0 <= j < |word| :: 'a' <= word[j] <= 'z' || word[j] == '-'
    ensures Named(w, word) <==> IsKeyword(w, word)
  {
    hide Token, IsLetter;
    forall j | 0 <= j < |w| ensures j < |word| ==> (Token(w[j]) == word[j] as int <==> IsLetter(w[j], word[j])) {
      if j < |word| {
        TokenIsLetter(w[j], word[j]);
      }
    }
    SpaceTokens(w);
  }

  lemma SpaceTokens(w: seq<byte>)
    ensures forall j | 0 <= j < |w| :: Token(w[j]) == SP <==> w[j] == 32
  {
    forall j | 0 <= j < |w| ensures Token(w[j]) == SP <==> w[j] == 32 {
      SpaceToken(w[j]);
    }
    hide Token;
  }

  lemma KeywordTexts()
    ensures forall j | 0 <= j < |"connection"| :: 'a' <= "connection"[j] <= 'z'
    ensures forall j | 0 <= j < |"proxy-connection"| :: 'a' <= "proxy-connection"[j] <= 'z' || "proxy-connection"[j] == '-'
    ensures forall j | 0 <= j < |"content-length"| :: 'a' <= "content-length"[j] <= 'z' || "content-length"[j] == '-'
    ensures forall j | 0 <= j < |"transfer-encoding"| :: 'a' <= "transfer-encoding"[j] <= 'z' || "transfer-encoding"[j] == '-'
    ensures forall j | 0 <= j < |"upgrade"| :: 'a' <= "upgrade"[j] <= 'z'
  {
  }

  lemma FieldCases(p: Parser, ch: byte)
    ensures p.state.HeaderFieldStart? ==> CaseOf(p, ch) == FieldStartCase(p, ch)
    ensures p.state.HeaderField? ==> CaseOf(p, ch) == FieldCase(p, ch)
  {
    hide FieldStartCase, FieldCase;
  }

  lemma NameStart(p: Parser, ch: byte)
    requires p.state.HeaderFieldStart? && Token(ch) != 0
    ensures CaseOf(p, ch).next.Advance?
    ensures var q := CaseOf(p, ch).p;
            q.state.HeaderField? && q.headerState == FieldFirst(Token(ch)) && q.index == 0
  {
    hide CaseOf, FieldFirst;
    FieldCases(p, ch);
  }

  lemma NameNext(p: Parser, ch: byte)
    requires p.state.HeaderField? && Token(ch) != 0
    ensures CaseOf(p, ch).next.Advance?
    ensures var q := CaseOf(p, ch).p;
            q.state.HeaderField? && (q.headerState, q.index) == FieldNext(p.headerState, p.index, Token(ch), ch)
  {
    hide CaseOf, FieldNext, Token;
    FieldCases(p, ch);
  }

  lemma {:induction false} NameIsRead(p: Parser, w: seq<byte>)
    requires p.state.HeaderFieldStart? && IsName(w)
    ensures var r := Follow(p, w);
            r.Some? && r.value.state.HeaderField? && Recognised(w, r.value.headerState, r.value.index)
    decreases |w|
  {
    hide CaseOf, Recognised, FieldNext, FieldFirst, Token, IsTokenByte;
    var n := |w| - 1;
    NameBytes(w[n]);
    if n == 0 {
      assert w == [w[0]];
      NameStart(p, w[0]);
      RecogniseFirst(w[0]);
      assert w[..0] == [];
    } else {
      assert IsName(w[..n]);
      NameIsRead(p, w[..n]);
      var q := Follow(p, w[..n]).value;
      NameNext(q, w[n]);
      RecogniseNext(w[..n], q.headerState, q.index, w[n]);
      assert w[..n] + [w[n]] == w;
    }
  }

  /** At the colon behind a header name the header state tells exactly which of the names that
      matter it was, in any case and with any number of spaces behind it. */
  lemma HeaderNameRecognition(p: Parser, w: seq<byte>)
    requires p.state.HeaderFieldStart? && IsName(w)
    ensures var r := Follow(p, w + [':' as int]);
            && r.Some? && r.value.state.HeaderValueDiscardWs?
            && var h := r.value.headerState;
               && (h.Connection? <==> IsKeyword(w, "connection") || IsKeyword(w, "proxy-connection"))
               && (h.ContentLength? <==> IsKeyword(w, "content-length"))
               && (h.TransferEncoding? <==> IsKeyword(w, "transfer-encoding"))
               && (h.Upgrade? <==> IsKeyword(w, "upgrade"))
  {
    hide CaseOf, Follow, Matches, IsKeyword, Token, FieldNext, IsTokenByte;
    NameIsRead(p, w);
    FollowSnoc(p, w, ':' as int);
    var q := Follow(p, w).value;
    ColonEndsName(q);
    KeywordsApart(w);
    if |w| <= 3 {
      PrefixCon(w);
    }
    KeywordTexts();
    NamedIs(w, "connection");
    NamedIs(w, "proxy-connection");
    NamedIs(w, "content-length");
    NamedIs(w, "transfer-encoding");
    NamedIs(w, "upgrade");
  }

  lemma ColonEndsName(p: Parser)
    requires p.state.HeaderField?
    ensures CaseOf(p, ':' as int).next.Advance? && CaseOf(p, ':' as int).p == p.(state := HeaderValueDiscardWs)
  {
    FieldCases(p, ':' as int);
    hide CaseOf;
  }

  // ---------- methods ----------

  predicate Spells(w: seq<byte>, s: string) {
    |w| == |s| && forall j | 0 <= j < |w| :: w[j] == s[j] as int
  }

  lemma MethodCases(p: Parser, ch: byte)
    ensures p.state.StartReq? ==> CaseOf(p, ch) == StartReqCase(p, ch)
    ensures p.state.ReqMethod? ==> CaseOf(p, ch) == MethodCase(p, ch)
  {
    hide StartReqCase, MethodCase;
  }

  /** A corrected guess begins with the letters already read. */
  lemma OtherMethodSpells(m: Method, i: nat, ch: byte)
    ensures OtherMethod(m, i, ch).Some? ==>
              var o := MethodString(OtherMethod(m, i, ch).value);
              i < |o| && i < |MethodString(m)| && o[..i] == MethodString(m)[..i] && o[i] as int == ch
  {
    if OtherMethod(m, i, ch).Some? {
      var s, o := MethodString(m), MethodString(OtherMethod(m, i, ch).value);
      assert i == 1 || i == 2 || i == 3 || i == 4;
    }
  }

  lemma FirstMethodSpells(ch: byte)
    ensures FirstMethod(ch).Some? ==>
              var o := MethodString(FirstMethod(ch).value); |o| >= 1 && o[0] as int == ch
  {
  }

  /** What the guess and the index say about the letters read so far. */
  predicate Guessed(w: seq<byte>, p: Parser) {
    p.state.ReqMethod? && p.index == |w| && |w| <= |MethodString(p.verb)| && Spells(w, MethodString(p.verb)[..|w|])
  }

  lemma GuessFirst(p: Parser, ch: byte)
    requires p.state.StartReq? && ch != CR && ch != LF && CaseOf(p, ch).next.Advance?
    ensures Guessed([ch], CaseOf(p, ch).p)
  {
    hide CaseOf, FirstMethod, MethodString;
    MethodCases(p, ch);
    FirstMethodSpells(ch);
  }

  lemma GuessNext(p: Parser, w: seq<byte>, ch: byte)
    requires Guessed(w, p) && ch != SP && CaseOf(p, ch).next.Advance?
    ensures Guessed(w + [ch], CaseOf(p, ch).p)
  {
    hide CaseOf, OtherMethod, MethodString;
    MethodCases(p, ch);
    OtherMethodSpells(p.verb, p.index, ch);
    var v := CaseOf(p, ch).p.verb;
    var i := |w|;
    assert MethodString(v)[..i] == MethodString(p.verb)[..i];
    assert forall j | 0 <= j < i :: w[j] == MethodString(p.verb)[..i][j] as int;
    assert forall j | 0 <= j < i :: MethodString(v)[..i + 1][j] == MethodString(v)[..i][j];
  }

  lemma {:induction false} MethodIsGuessed(p: Parser, w: seq<byte>)
    requires p.state.StartReq? && w != [] && w[0] != CR && w[0] != LF && SP !in w
    requires Follow(p, w).Some?
    ensures Guessed(w, Follow(p, w).value)
    decreases |w|
  {
    hide CaseOf, Guessed;
    var n := |w| - 1;
    if n == 0 {
      assert w == [w[0]] && w[..0] == [];
      GuessFirst(p, w[0]);
    } else {
      MethodIsGuessed(p, w[..n]);
      GuessNext(Follow(p, w[..n]).value, w[..n], w[n]);
      assert w[..n] + [w[n]] == w;
    }
  }

  /** The guess after the first i letters of m. */
  function Guess(m: Method, i: nat): Method {
    match m
    case CHECKOUT => if i <= 1 then CONNECT else m
    case COPY => if i <= 2 then CONNECT else m
    case MOVE => if i <= 1 then MKCOL else m
    case MERGE => if i <= 1 then MKCOL else m
    case MSEARCH => if i <= 1 then MKCOL else m
    case MKACTIVITY => if i <= 2 then MKCOL else m
    case MKCALENDAR => if i <= 3 then MKCOL else m
    case SEARCH => if i <= 1 then SUBSCRIBE else m
    case PROPFIND => if i <= 1 then POST else m
    case PROPPATCH => if i <= 1 then POST else if i <= 4 then PROPFIND else m
    case PUT => if i <= 1 then POST else m
    case PURGE => if i <= 1 then POST else if i == 2 then PUT else m
    case PATCH => if i <= 1 then POST else m
    case UNSUBSCRIBE => if i <= 2 then UNLOCK else m
    case _ => m
  }

  lemma GuessStarts(m: Method)
    ensures var s := MethodString(m);
            |s| >= 3 && s[0] as int < 128 && IsAlpha(s[0] as int) && FirstMethod(s[0] as int) == Some(Guess(m, 1))
  {
  }

  lemma LettersAreBytes(m: Method, i: nat)
    requires i < |MethodString(m)|
    ensures 32 < MethodString(m)[i] as int < 128
  {
  }

  /** The guess for m is confirmed or corrected by the next letter of m. */
  lemma GuessGoesOn(m: Method, i: nat)
    requires 1 <= i < |MethodString(m)|
    ensures var g, ch := Guess(m, i), MethodString(m)[i] as int;
            32 < ch < 128 &&
            if CharAt(MethodString(g), i) == ch then Guess(m, i + 1) == g
            else OtherMethod(g, i, ch) == Some(Guess(m, i + 1))
  {
    LettersAreBytes(m, i);
  }

  lemma {:induction false} MethodIsAccepted(p: Parser, w: seq<byte>, m: Method, i: nat)
    requires p.state.StartReq? && Spells(w, MethodString(m)) && 1 <= i <= |w|
    ensures var r := Follow(p, w[..i]);
            r.Some? && r.value.state.ReqMethod? && r.value.verb == Guess(m, i) && r.value.index == i
    decreases i
  {
    hide CaseOf, MethodString, FirstMethod, OtherMethod, Guess, CharAt;
    if i == 1 {
      GuessStarts(m);
      MethodCases(p, w[0]);
      assert w[..1] == [w[0]] && w[..1][..0] == [];
    } else {
      MethodIsAccepted(p, w, m, i - 1);
      GuessGoesOn(m, i - 1);
      MethodCases(Follow(p, w[..i-1]).value, w[i-1]);
      assert w[..i][..i-1] == w[..i-1];
    }
  }

  lemma GuessEnds(m: Method)
    ensures Guess(m, |MethodString(m)|) == m
  {
  }

  lemma SpaceEndsMethod(p: Parser)
    requires p.state.ReqMethod?
    ensures var k := CaseOf(p, SP);
            (k.next.Advance? && k.p.state.ReqSpacesBeforeUrl?) <==> CharAt(MethodString(p.verb), p.index) == 0
    ensures CharAt(MethodString(p.verb), p.index) == 0 ==> CaseOf(p, SP).p.verb == p.verb
  {
    hide CaseOf, CharAt, MethodString, OtherMethod;
    MethodCases(p, SP);
  }

  lemma TerminatorIsAtTheEnd(m: Method, i: nat)
    requires i <= |MethodString(m)|
    ensures CharAt(MethodString(m), i) == 0 <==> i == |MethodString(m)|
  {
    if i < |MethodString(m)| {
      LettersAreBytes(m, i);
    }
    hide MethodString;
  }

  /** The scanner accepts the letters before the first space as method m exactly if they
      spell m. */
  lemma MethodRecognition(p: Parser, w: seq<byte>, m: Method)
    requires p.state.StartReq? && w != [] && w[0] != CR && w[0] != LF && SP !in w
    ensures var r := Follow(p, w + [SP]);
            (r.Some? && r.value.state.ReqSpacesBeforeUrl? && r.value.verb == m) <==> Spells(w, MethodString(m))
  {
    hide CaseOf, MethodString, Follow, CharAt;
    FollowSnoc(p, w, SP);
    if Spells(w, MethodString(m)) {
      MethodIsAccepted(p, w, m, |w|);
      assert w[..|w|] == w;
      GuessEnds(m);
    }
    if Follow(p, w).Some? {
      var q := Follow(p, w).value;
      MethodIsGuessed(p, w);
      SpaceEndsMethod(q);
      TerminatorIsAtTheEnd(q.verb, |w|);
      if |w| == |MethodString(q.verb)| {
        assert MethodString(q.verb)[..|w|] == MethodString(q.verb);
      }
    }
  }

  // ---------- numbers ----------

  /** The decimal value of the digits of w; spaces do not count. */
  function Decimal(w: seq<byte>): int {
    if w == [] then 0
    else
      var n := |w| - 1;
      if w[n] == SP then Decimal(w[..n]) else Decimal(w[..n]) * 10 + (w[n] - '0' as int)
  }

  predicate IsLength(w: seq<byte>) {
    w != [] && IsNum(w[0]) && forall ch | ch in w :: IsNum(ch) || ch == SP
  }

  lemma {:induction false} DecimalIsNatural(w: seq<byte>)
    requires forall ch | ch in w :: IsNum(ch) || ch == SP
    ensures Decimal(w) >= 0
    decreases |w|
  {
    if w != [] {
      DecimalIsNatural(w[..|w|-1]);
      assert w[|w|-1] in w;
    }
  }

  lemma LengthStart(p: Parser, ch: byte)
    requires p.state.HeaderValueDiscardWs? && p.headerState.ContentLength? && IsNum(ch)
    ensures var k := CaseOf(p, ch);
            k.next.Advance? && k.p.state.HeaderValue? && k.p.headerState.ContentLength? &&
            k.p.contentLength == ch - '0' as int
  {
  }

  lemma LengthNext(p: Parser, ch: byte)
    requires p.state.HeaderValue? && p.headerState.ContentLength? && (IsNum(ch) || ch == SP)
    ensures var k := CaseOf(p, ch);
            && (k.next.Advance? ==> k.p.state.HeaderValue? && k.p.headerState.ContentLength?)
            && if ch == SP then k.next.Advance? && k.p.contentLength == p.contentLength
               else
                 && (k.next.Advance? <==> p.contentLength <= 1844674407370955160)
                 && (k.next.Advance? ==> k.p.contentLength == p.contentLength * 10 + (ch - '0' as int))
                 && (!k.next.Advance? ==> k.next == Fail(InvalidContentLength))
  {
    hide ValueNext;
  }

  /** A Content-Length value is accepted exactly if its decimal value is below ULLONG_MAX - 5;
      then content_length is that value, so it neither wraps nor takes the value that stands for
      an absent Content-Length. */
  lemma {:induction false} ContentLengthValue(p: Parser, w: seq<byte>)
    requires p.state.HeaderValueDiscardWs? && p.headerState.ContentLength? && IsLength(w)
    ensures var r := Follow(p, w);
            && (r.Some? <==> Decimal(w) < ULLONG_MAX - 5)
            && (r.Some? ==> r.value.state.HeaderValue? && r.value.headerState.ContentLength? &&
                            r.value.contentLength == Decimal(w))
    decreases |w|
  {
    hide CaseOf;
    var n := |w| - 1;
    if n == 0 {
      assert w == [w[0]] && w[..0] == [];
      LengthStart(p, w[0]);
    } else {
      assert IsLength(w[..n]) by { assert w[..n][0] == w[0]; }
      assert IsNum(w[n]) || w[n] == SP;
      ContentLengthValue(p, w[..n]);
      DecimalIsNatural(w[..n]);
      if Follow(p, w[..n]).Some? {
        LengthNext(Follow(p, w[..n]).value, w[n]);
      }
    }
  }

  /** The value of w as a hexadecimal number, with the digits that the parser accepts. */
  function Hexadecimal(w: seq<byte>): int {
    if w == [] then 0 else Hexadecimal(w[..|w|-1]) * 16 + Unhex(w[|w|-1])
  }

  predicate IsChunkSize(w: seq<byte>) { w != [] && forall ch | ch in w :: Unhex(ch) != -1 }

  lemma {:induction false} HexadecimalIsNatural(w: seq<byte>)
    requires forall ch | ch in w :: Unhex(ch) != -1
    ensures Hexadecimal(w) >= 0
    decreases |w|
  {
    hide Unhex;
    if w != [] {
      HexadecimalIsNatural(w[..|w|-1]);
      assert Unhex(w[|w|-1]) != -1;
    }
  }

  lemma SizeStart(p: Parser, ch: byte)
    requires p.state.ChunkSizeStart?
    ensures var k := CaseOf(p, ch);
            && (k.next.Advance? <==> Unhex(ch) != -1)
            && (k.next.Advance? ==> k.p.state.ChunkSize? && k.p.contentLength == Unhex(ch))
  {
    hide Unhex;
  }

  lemma SizeNext(p: Parser, ch: byte)
    requires p.state.ChunkSize? && Unhex(ch) != -1
    ensures var k := CaseOf(p, ch);
            && (k.next.Advance? <==> p.contentLength <= 0xFFF_FFFF_FFFF_FFFE)
            && (k.next.Advance? ==> k.p.state.ChunkSize? && k.p.contentLength == p.contentLength * 16 + Unhex(ch))
            && (!k.next.Advance? ==> k.next == Fail(InvalidContentLength))
  {
    assert ch != CR;
    hide Unhex;
  }

  /** A chunk size is accepted exactly if its value is below 2^64 - 16; then content_length is
      that value. */
  lemma {:induction false} ChunkSizeValue(p: Parser, w: seq<byte>)
    requires p.state.ChunkSizeStart? && IsChunkSize(w)
    ensures var r := Follow(p, w);
            && (r.Some? <==> Hexadecimal(w) < ULLONG_MAX - 15)
            && (r.Some? ==> r.value.state.ChunkSize? && r.value.contentLength == Hexadecimal(w))
    decreases |w|
  {
    hide CaseOf, Unhex;
    var n := |w| - 1;
    assert Unhex(w[n]) != -1;
    if n == 0 {
      assert w == [w[0]] && w[..0] == [];
      SizeStart(p, w[0]);
    } else {
      assert IsChunkSize(w[..n]);
      ChunkSizeValue(p, w[..n]);
      HexadecimalIsNatural(w[..n]);
      if Follow(p, w[..n]).Some? {
        SizeNext(Follow(p, w[..n]).value, w[n]);
      }
    }
  }

  predicate IsHexDigit(b: byte) {
    IsNum(b) || 'a' as int <= b <= 'f' as int || 'A' as int <= b <= 'F' as int
  }

  /** A chunk size may begin with a byte exactly if that is a hexadecimal digit, or a byte from
      128 on: the table unhex leaves those out, and they read as the digit 0. */
  lemma ChunkSizeDigits(p: Parser, ch: byte)
    requires p.state.ChunkSizeStart?
    ensures CaseOf(p, ch).next.Advance? <==> IsHexDigit(ch) || ch >= 128
    ensures ch >= 128 ==> CaseOf(p, ch).p.contentLength == 0
  {
    SizeStart(p, ch);
    hide CaseOf;
  }
}
