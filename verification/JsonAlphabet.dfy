/** The characters behind the bytes and byte classes that the grammar and the two JSON readers share. */
module JsonAlphabet {
  import opened Bytes
  import opened JsonGrammar

  function Char(b: byte): char { b as char }

  // The bytes spell the text.
  predicate Spell(t: bytes, s: string) { |t| == |s| && forall i :: 0 <= i < |t| ==> Char(t[i]) == s[i] }

  /** The structural characters and the literals of section 2 and 3 of RFC 8259, and the signs of a number. */
  lemma {:induction false} Structural()
    ensures Spell([LBRACKET, RBRACKET, LBRACE, RBRACE, COLON, COMMA], "[]{}:,")
    ensures Spell([QUOTE, BACKSLASH, LETTER_U, MINUS, PLUS, DOT, ZERO], "\"\\u-+.0")
    ensures Spell(TRUE, "true") && Spell(FALSE, "false") && Spell(NULL, "null")
  { }

  const BLANKS: bytes := [0x20, 0x09, 0x0A, 0x0B, 0x0C, 0x0D]
  const DIGITS: bytes := [0x30, 0x31, 0x32, 0x33, 0x34, 0x35, 0x36, 0x37, 0x38, 0x39]
  const HEX_LETTERS: bytes := [0x61, 0x62, 0x63, 0x64, 0x65, 0x66, 0x41, 0x42, 0x43, 0x44, 0x45, 0x46]
  const ESCAPE_LETTERS: bytes := [0x22, 0x5C, 0x2F, 0x62, 0x66, 0x6E, 0x72, 0x74]

  lemma {:induction false} Numerals()
    ensures Spell(DIGITS, "0123456789")
  { }

  lemma {:induction false} Letters()
    ensures Spell(HEX_LETTERS, "abcdefABCDEF") && Spell(ESCAPE_LETTERS, "\"\\/bfnrt")
  { }

  /** The byte classes: isspace, digits, hexadecimal digits, the letters of short escapes, and what ends a bare word. */
  lemma {:induction false} Classes(b: byte)
    ensures In(Space, b) <==> b in BLANKS
    ensures In(Digit, b) <==> b in DIGITS
    ensures IsHexDigit(b) <==> b in DIGITS || b in HEX_LETTERS
    ensures IsShortEscape(b) <==> b in ESCAPE_LETTERS
    ensures In(SpaceOrColon, b) <==> b in BLANKS || b == COLON
    ensures In(SpaceOrComma, b) <==> b in BLANKS || b == COMMA
    ensures In(Scalar, b) <==> b !in BLANKS && b != COMMA && b != RBRACE && b != RBRACKET
  {
    DigitList(b);
    BlankList(b);
    HexList(b);
    EscapeList(b);
  }

  lemma {:induction false} DigitList(b: byte)
    ensures IsDigit(b) <==> b in DIGITS
  { }

  lemma {:induction false} BlankList(b: byte)
    ensures IsSpace(b) <==> b in BLANKS
  { }

  lemma {:induction false} HexList(b: byte)
    ensures IsHexDigit(b) <==> b in DIGITS || b in HEX_LETTERS
  { }

  lemma {:induction false} EscapeList(b: byte)
    ensures IsShortEscape(b) <==> b in ESCAPE_LETTERS
  { }
}
