/** The tables of the parser, against what they are meant to say of characters. */
module HttpAscii {
  import opened Common
  import opened HttpTypes

  predicate IsDigit(b: byte) { 48 <= b <= 57 }
  predicate IsCapital(b: byte) { 65 <= b <= 90 }
  predicate IsSmall(b: byte) { 97 <= b <= 122 }

  /** b is the character c, or the capital letter that belongs to it. */
  predicate IsLetter(b: byte, c: char) { b == c as int || (IsCapital(b) && b + 32 == c as int) }

  predicate IsOneOf(b: byte, cs: string) { exists i :: 0 <= i < |cs| && cs[i] as int == b }

  // ---------- tokens ----------

  /** The characters of a token in section 3.2.6 of RFC 7230. */
  predicate IsTokenByte(b: byte) {
    IsDigit(b) || IsCapital(b) || IsSmall(b) || IsOneOf(b, "!#$%&'*+-.^_`|~")
  }

  lemma OneOf(b: byte, cs: string, i: nat)
    requires i < |cs| && cs[i] as int == b
    ensures IsOneOf(b, cs)
  {
  }

  /** The table accepts these characters and lowers the letters. */
  lemma TokenBytes(b: byte)
    ensures StrictToken(b) != 0 <==> IsTokenByte(b)
    ensures StrictToken(b) == if !IsTokenByte(b) then 0 else if IsCapital(b) then b + 32 else b
    ensures Token(b) == if b == 32 then 32 else StrictToken(b)
  {
    var cs := "!#$%&'*+-.^_`|~";
    assert cs[0] as int == 33 && cs[1] as int == 35 && cs[2] as int == 36 && cs[3] as int == 37 && cs[4] as int == 38;
    assert cs[5] as int == 39 && cs[6] as int == 42 && cs[7] as int == 43 && cs[8] as int == 45 && cs[9] as int == 46;
    assert cs[10] as int == 94 && cs[11] as int == 95 && cs[12] as int == 96 && cs[13] as int == 124 && cs[14] as int == 126;
    assert |cs| == 15;
  }

  /** LOWER is bitwise or with 0x20: it sets that bit and leaves the others. */
  lemma LowerSetsBit(b: byte)
    ensures Lower(b) % 32 == b % 32 && (Lower(b) / 32) % 2 == 1 && Lower(b) / 64 == b / 64
  {
  }

  /** For letters and the hyphen, in text without CR, that is to compare them in any case. */
  lemma LowerIsLetter(b: byte, c: char)
    requires b != 13 && ('a' <= c <= 'z' || c == '-')
    ensures Lower(b) == c as int <==> IsLetter(b, c)
  {
  }

  lemma TokenIsLetter(b: byte, c: char)
    requires 'a' <= c <= 'z' || c == '-'
    ensures Token(b) == c as int <==> IsLetter(b, c)
  {
  }

  lemma AlphaIs(b: byte)
    ensures IsAlpha(b) <==> IsCapital(b) || IsSmall(b)
    ensures IsNum(b) <==> IsDigit(b)
  {
  }

  // ---------- hexadecimal digits ----------

  /** The digits in the order of their values. */
  lemma UnhexIs(b: byte, d: int)
    requires 0 <= d < 16
    ensures b < 128 ==> (Unhex(b) == d <==> IsLetter(b, "0123456789abcdef"[d]))
    ensures b >= 128 ==> Unhex(b) == 0
  {
    var cs := "0123456789abcdef";
    assert d < 10 ==> cs[d] as int == 48 + d;
    assert d >= 10 ==> cs[d] as int == 87 + d;
  }

  // ---------- URLs ----------

  /** The bytes of a path that are not delimiters: all but control characters other than tabulator
      and form feed, space, '#', '?' and DEL. */
  lemma UrlCharIs(b: byte)
    ensures IsUrlChar(b) <==> b == 9 || b == 12 || (b > 32 && b != 35 && b != 63 && b != 127)
  {
  }

  lemma UserinfoCharIs(b: byte)
    ensures IsUserinfoChar(b) <==> IsDigit(b) || IsCapital(b) || IsSmall(b) || IsOneOf(b, "-_.!~*'()%;:&=+$,")
  {
    var cs := "-_.!~*'()%;:&=+$,";
    assert |cs| == 17;
    assert cs[0] as int == 45 && cs[1] as int == 95 && cs[2] as int == 46 && cs[3] as int == 33 && cs[4] as int == 126;
    assert cs[5] as int == 42 && cs[6] as int == 39 && cs[7] as int == 40 && cs[8] as int == 41 && cs[9] as int == 37;
    assert cs[10] as int == 59 && cs[11] as int == 58 && cs[12] as int == 38 && cs[13] as int == 61 && cs[14] as int == 43;
    assert cs[15] as int == 36 && cs[16] as int == 44;
  }
}
