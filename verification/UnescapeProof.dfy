/**
  What `unescape` promises: a text written in \uXXXX escapes comes out as the
  UTF-8 of what it spells, and well-formed UTF-8 never becomes ill-formed.
*/
module UnescapeProof {
  import opened Bytes
  import opened JsonAlphabet
  import opened Utf8
  import opened Unescape

  // -------------------------------------------------- section 7 of RFC 8259

  // `b` is the hexadecimal digit of `n`, in either case.
  predicate HexOf(b: byte, n: bv32) {
    if n < 10 then b == 0x30 + n as byte
    else n < 16 && (b == 0x41 + (n - 10) as byte || b == 0x61 + (n - 10) as byte)
  }

  // `s` has \uXXXX at index `i`, XXXX spelling `u`.
  predicate Unit(s: bytes, i: nat, u: bv32) {
    && i + 6 <= |s| && s[i] == BACKSLASH && s[i + 1] == LETTER_U
    && HexOf(s[i + 2], (u >> 12) & 0xF) && HexOf(s[i + 3], (u >> 8) & 0xF)
    && HexOf(s[i + 4], (u >> 4) & 0xF) && HexOf(s[i + 5], u & 0xF)
  }

  function HighOf(cp: bv32): bv32 requires 0xFFFF < cp { 0xD800 + ((cp - 0x10000) >> 10) }

  function LowOf(cp: bv32): bv32 requires 0xFFFF < cp { 0xDC00 + ((cp - 0x10000) & 0x3FF) }

  // From index `i` on, `s` is the scalars `cps`, each written as one escape or
  // as the escapes of a surrogate pair.
  ghost predicate Escapes(s: bytes, i: nat, cps: seq<bv32>)
    decreases |cps|
  {
    if cps == [] then i == |s|
    else if cps[0] <= 0xFFFF then Unit(s, i, cps[0]) && Escapes(s, i + 6, cps[1..])
    else Unit(s, i, HighOf(cps[0])) && Unit(s, i + 6, LowOf(cps[0])) && Escapes(s, i + 12, cps[1..])
  }

  /** The surrogate arithmetic is a bijection between pairs and 0x10000..0x10FFFF. */
  lemma {:induction false} PairOfScalar(cp: bv32)
    requires 0xFFFF < cp <= 0x10FFFF
    ensures IsHigh(HighOf(cp)) && IsLow(LowOf(cp)) && Combine(HighOf(cp), LowOf(cp)) == cp
  {
    PairRange(cp);
    var d := cp - 0x10000;
    hide IsHigh, IsLow;
    TwentyBits(d);
    Cancel(0xD800, d >> 10);
    Cancel(0xDC00, d & 0x3FF);
    Restore(0x10000, cp);
  }

  lemma {:induction false} TwentyBits(d: bv32)
    ensures ((d >> 10) << 10) | (d & 0x3FF) == d
  { }

  lemma {:induction false} Cancel(c: bv32, x: bv32)
    ensures (c + x) - c == x
  { }

  lemma {:induction false} Restore(c: bv32, x: bv32)
    ensures c + (x - c) == x
  { }

  lemma {:induction false} PairRange(cp: bv32)
    requires 0xFFFF < cp <= 0x10FFFF
    ensures IsHigh(HighOf(cp)) && IsLow(LowOf(cp))
  { }

  lemma {:induction false} ScalarOfPair(h: bv32, l: bv32)
    requires IsHigh(h) && IsLow(l)
    ensures 0xFFFF < Combine(h, l) <= 0x10FFFF
    ensures HighOf(Combine(h, l)) == h && LowOf(Combine(h, l)) == l
  { }

  lemma {:induction false} HexOfValue(b: byte, n: bv32)
    requires HexOf(b, n)
    ensures HexValue(b) == Some(n)
  { }

  function Join(d3: bv32, d2: bv32, d1: bv32, d0: bv32): bv32 {
    Push(Push(Push(Push(0, d3), d2), d1), d0)
  }

  lemma {:induction false} JoinDigits(u: bv32)
    requires u <= 0xFFFF
    ensures Join((u >> 12) & 0xF, (u >> 8) & 0xF, (u >> 4) & 0xF, u & 0xF) == u
  { }

  lemma {:induction false} NextDigit(s: bytes, pos: nat, k: nat, val: bv32, d: bv32)
    requires k < 4 && pos + 4 <= |s| && HexOf(s[pos + k], d)
    ensures HexDigits(s, pos, k, val) == HexDigits(s, pos, k + 1, Push(val, d))
  {
    HexOfValue(s[pos + k], d);
    hide HexValue, HexOf, Push;
  }

  lemma {:induction false} UnitParses(s: bytes, i: nat, u: bv32)
    requires u <= 0xFFFF && Unit(s, i, u)
    ensures ParseU16(s, i + 2) == Some(u)
  {
    hide HexOf, ParseU16, Join;
    FourDigits(s, i + 2, (u >> 12) & 0xF, (u >> 8) & 0xF, (u >> 4) & 0xF, u & 0xF);
    JoinDigits(u);
  }

  lemma {:induction false} FourDigits(s: bytes, p: nat, d3: bv32, d2: bv32, d1: bv32, d0: bv32)
    requires p + 4 <= |s| && HexOf(s[p], d3) && HexOf(s[p + 1], d2) && HexOf(s[p + 2], d1) && HexOf(s[p + 3], d0)
    ensures ParseU16(s, p) == Some(Join(d3, d2, d1, d0))
  {
    hide HexDigits, HexOf, Push;
    NextDigit(s, p, 0, 0, d3);
    NextDigit(s, p, 1, Push(0, d3), d2);
    NextDigit(s, p, 2, Push(Push(0, d3), d2), d1);
    NextDigit(s, p, 3, Push(Push(Push(0, d3), d2), d1), d0);
    LastDigit(s, p, Join(d3, d2, d1, d0));
  }

  lemma {:induction false} LastDigit(s: bytes, pos: nat, val: bv32)
    requires pos + 4 <= |s|
    ensures HexDigits(s, pos, 4, val) == Some(val)
  { }

  lemma {:induction false} SingleStep(s: bytes, i: nat, cp: bv32)
    requires IsScalar(cp) && cp <= 0xFFFF && Unit(s, i, cp)
    ensures OneStep(s, i) == Step(Encode(cp), i + 6)
  {
    NotSurrogate(cp);
    UnitParses(s, i, cp);
    hide Encode, ParseU16, HexOf, Combine, IsHigh, IsLow, IsScalar;
  }

  lemma {:induction false} PairStep(s: bytes, i: nat, cp: bv32)
    requires 0xFFFF < cp <= 0x10FFFF && Unit(s, i, HighOf(cp)) && Unit(s, i + 6, LowOf(cp))
    ensures OneStep(s, i) == Step(Encode(cp), i + 12)
  {
    PairOfScalar(cp);
    LowRange(HighOf(cp), LowOf(cp));
    UnitParses(s, i, HighOf(cp));
    UnitParses(s, i + 6, LowOf(cp));
    hide Encode, ParseU16, HexOf, HighOf, LowOf, Combine, IsHigh, IsLow;
  }

  lemma {:induction false} UnescapeEscapes(s: bytes, i: nat, cps: seq<bv32>)
    requires Scalars(cps) && Escapes(s, i, cps)
    ensures i <= |s| && UnescapeFrom(s, i) == EncodeAll(cps)
    decreases |cps|
  {
    hide Encode, HexOf, HighOf, LowOf, OneStep;
    if cps != [] {
      var cp := cps[0];
      assert IsScalar(cp);
      if cp <= 0xFFFF {
        SingleStep(s, i, cp);
        UnescapeEscapes(s, i + 6, cps[1..]);
      } else {
        PairStep(s, i, cp);
        UnescapeEscapes(s, i + 12, cps[1..]);
      }
    }
  }

  lemma {:induction false} NotSurrogate(cp: bv32)
    requires IsScalar(cp)
    ensures !IsHigh(cp) && !IsLow(cp)
  { }

  lemma {:induction false} LowRange(h: bv32, l: bv32)
    requires IsHigh(h) && IsLow(l)
    ensures h <= 0xFFFF && l <= 0xFFFF
  { }

  /** The escape round trip: the result is the UTF-8 encoding, and decodes back. */
  lemma {:induction false} EscapeRoundTrip(s: bytes, cps: seq<bv32>)
    requires Scalars(cps) && Escapes(s, 0, cps)
    ensures Unescaped(s) == EncodeAll(cps)
    ensures Decode(Unescaped(s)) == Some(cps)
  {
    UnescapeEscapes(s, 0, cps);
    DecodeEncodeAll(cps);
  }

  // What the letters of the short escapes stand for: quotation mark, backslash,
  // slash, backspace, form feed, line feed, carriage return and tab.
  const MEANINGS: bytes := [0x22, 0x5C, 0x2F, 0x08, 0x0C, 0x0A, 0x0D, 0x09]

  ghost predicate ShortFor(letter: byte, meant: byte) {
    exists k :: 0 <= k < 8 && letter == ESCAPE_LETTERS[k] && meant == MEANINGS[k]
  }

  // From index `i` on, `s` is the text, each byte as it is or as a short escape.
  ghost predicate Shortened(s: bytes, i: nat, text: bytes)
    decreases |text|
  {
    if text == [] then i == |s|
    else
      || (i < |s| && s[i] == text[0] != BACKSLASH && Shortened(s, i + 1, text[1..]))
      || (i + 1 < |s| && s[i] == BACKSLASH && ShortFor(s[i + 1], text[0]) && Shortened(s, i + 2, text[1..]))
  }

  lemma {:induction false} ShortMeans(letter: byte, meant: byte)
    requires ShortFor(letter, meant)
    ensures letter != LETTER_U && Short(letter) == meant
  { }

  /** Any text, written with the short escapes of the standard wherever one likes, unescapes to itself. */
  lemma {:induction false} ShortRoundTrip(s: bytes, i: nat, text: bytes)
    requires Shortened(s, i, text)
    ensures UnescapeFrom(s, i) == text
    decreases |text|
  {
    hide Short, ShortFor;
    if text != [] {
      if s[i] == BACKSLASH {
        ShortMeans(s[i + 1], text[0]);
        ShortRoundTrip(s, i + 2, text[1..]);
      } else {
        ShortRoundTrip(s, i + 1, text[1..]);
      }
      assert text == [text[0]] + text[1..];
    }
  }

  // Four hexadecimal digits from index `i` on.
  predicate FourHexAt(s: bytes, i: nat) { i + 4 <= |s| && forall k :: i <= k < i + 4 ==> IsHexDigit(s[k]) }

  lemma {:induction false} HexDigitMeans(b: byte)
    ensures HexValue(b).Some? <==> IsHexDigit(b)
  { }

  lemma {:induction false} FourHexMeans(s: bytes, i: nat)
    ensures ParseU16(s, i).Some? <==> FourHexAt(s, i)
  {
    hide HexValue, IsHexDigit;
    if i + 4 <= |s| {
      HexDigitMeans(s[i]);
      HexDigitMeans(s[i + 1]);
      HexDigitMeans(s[i + 2]);
      HexDigitMeans(s[i + 3]);
      HexRest(s, i);
    }
  }

  lemma {:induction false} HexRest(s: bytes, i: nat)
    requires i + 4 <= |s|
    ensures ParseU16(s, i).Some? <==>
      HexValue(s[i]).Some? && HexValue(s[i + 1]).Some? && HexValue(s[i + 2]).Some? && HexValue(s[i + 3]).Some?
  {
    hide HexValue;
  }

  /**
    What is no escape of the standard: \\u without four digits becomes a question
    mark and the digits stay; any other letter stands for itself; a backslash at
    the end stays.
  */
  lemma {:induction false} OddEscapes(s: bytes, i: nat)
    requires i < |s| && s[i] == BACKSLASH
    ensures i + 1 == |s| ==> UnescapeFrom(s, i) == [BACKSLASH]
    ensures i + 1 < |s| && s[i + 1] == LETTER_U && !FourHexAt(s, i + 2) ==>
      UnescapeFrom(s, i) == [0x3F] + UnescapeFrom(s, i + 2)
    ensures i + 1 < |s| && s[i + 1] != LETTER_U && s[i + 1] !in ESCAPE_LETTERS ==>
      UnescapeFrom(s, i) == [s[i + 1]] + UnescapeFrom(s, i + 2)
  {
    FourHexMeans(s, i + 2);
    hide ParseU16, FourHexAt;
    if i + 1 == |s| { assert UnescapeFrom(s, |s|) == []; }
    if i + 1 < |s| { OtherLetter(s[i + 1]); }
  }

  lemma {:induction false} OtherLetter(c: byte)
    ensures c !in ESCAPE_LETTERS ==> Short(c) == c
  {
    var l := ESCAPE_LETTERS;
    assert l[3] == 0x62 && l[4] == 0x66 && l[5] == 0x6E && l[6] == 0x72 && l[7] == 0x74;
  }

  lemma {:induction false} ValueOfHex(b: byte, d: bv32)
    requires HexValue(b) == Some(d)
    ensures HexOf(b, d) && d < 16
  { }

  lemma {:induction false} DigitsOfJoin(d3: bv32, d2: bv32, d1: bv32, d0: bv32)
    requires d3 < 16 && d2 < 16 && d1 < 16 && d0 < 16
    ensures var u := Join(d3, d2, d1, d0);
      (u >> 12) & 0xF == d3 && (u >> 8) & 0xF == d2 && (u >> 4) & 0xF == d1 && u & 0xF == d0 && u <= 0xFFFF
  { }

  // What parses as four digits spells its value.
  lemma {:induction false} ParsedIsUnit(s: bytes, i: nat, u: bv32)
    requires i + 2 <= |s| && s[i] == BACKSLASH && s[i + 1] == LETTER_U && ParseU16(s, i + 2) == Some(u)
    ensures Unit(s, i, u) && u <= 0xFFFF
  {
    HexRest(s, i + 2);
    hide HexOf, HexValue, ParseU16, Join;
    var d3, d2 := HexValue(s[i + 2]).value, HexValue(s[i + 3]).value;
    var d1, d0 := HexValue(s[i + 4]).value, HexValue(s[i + 5]).value;
    ValueOfHex(s[i + 2], d3);
    ValueOfHex(s[i + 3], d2);
    ValueOfHex(s[i + 4], d1);
    ValueOfHex(s[i + 5], d0);
    FourDigits(s, i + 2, d3, d2, d1, d0);
    DigitsOfJoin(d3, d2, d1, d0);
  }

  /** An escape of half a surrogate pair, without the escape of the other half after it, becomes U+FFFD. */
  lemma {:induction false} LoneSurrogate(s: bytes, i: nat, u: bv32)
    requires u <= 0xFFFF && (IsHigh(u) || IsLow(u)) && Unit(s, i, u)
    requires IsHigh(u) ==> forall l :: IsLow(l) ==> !Unit(s, i + 6, l)
    ensures UnescapeFrom(s, i) == [0xEF, 0xBF, 0xBD] + UnescapeFrom(s, i + 6)
  {
    UnitParses(s, i, u);
    Replacement();
    UnitStarts(s, i, u);
    if i + 8 <= |s| && s[i + 6] == BACKSLASH && s[i + 7] == LETTER_U && ParseU16(s, i + 8).Some? {
      ParsedIsUnit(s, i + 6, ParseU16(s, i + 8).value);
    }
    hide ParseU16, Unit, HexOf;
  }

  lemma {:induction false} UnitStarts(s: bytes, i: nat, u: bv32)
    requires Unit(s, i, u)
    ensures i + 6 <= |s| && s[i] == BACKSLASH && s[i + 1] == LETTER_U
  { }

  lemma {:induction false} Replacement()
    ensures Encode(0xFFFD) == [0xEF, 0xBF, 0xBD]
  { }

  // ---------------------------------------------------- well-formed results

  lemma {:induction false} PlainStep(s: bytes, i: nat)
    requires i < |s| && s[i] != BACKSLASH
    ensures OneStep(s, i) == Step([s[i]], i + 1)
  { }

  lemma {:induction false} CopyRun(s: bytes, i: nat, n: nat)
    requires i + n <= |s| && forall k :: i <= k < i + n ==> s[k] != BACKSLASH
    ensures UnescapeFrom(s, i) == s[i..i + n] + UnescapeFrom(s, i + n)
    decreases n
  {
    hide OneStep, UnescapeFrom;
    if n == 0 {
      assert s[i..i] == [];
    } else {
      CopyOne(s, i);
      CopyRun(s, i + 1, n - 1);
      Regroup(s, i, i + n, UnescapeFrom(s, i + n));
    }
  }

  lemma {:induction false} CopyOne(s: bytes, i: nat)
    requires i < |s| && s[i] != BACKSLASH
    ensures UnescapeFrom(s, i) == [s[i]] + UnescapeFrom(s, i + 1)
  {
    hide OneStep;
    PlainStep(s, i);
  }

  lemma {:induction false} Regroup(s: bytes, i: nat, j: nat, rest: bytes)
    requires i < j <= |s|
    ensures [s[i]] + (s[i + 1..j] + rest) == s[i..j] + rest
  {
    assert s[i..j] == [s[i]] + s[i + 1..j];
  }

  lemma {:induction false} DropAscii(s: bytes, i: nat)
    requires i < |s| && s[i] <= 0x7F && WellFormed(s[i..])
    ensures WellFormed(s[i + 1..])
  {
    assert s[i..] == [s[i]] + s[i + 1..];
    Ascii(s[i], s[i + 1..]);
  }

  lemma {:induction false} HexIsAscii(s: bytes, pos: nat)
    requires ParseU16(s, pos).Some?
    ensures s[pos] <= 0x7F && s[pos + 1] <= 0x7F && s[pos + 2] <= 0x7F && s[pos + 3] <= 0x7F
    ensures ParseU16(s, pos).value <= 0xFFFF
  {
    hide HexValue, Push;
    HexRange(s[pos]);
    HexRange(s[pos + 1]);
    HexRange(s[pos + 2]);
    HexRange(s[pos + 3]);
    var d3 := HexValue(s[pos]).value;
    assert HexDigits(s, pos, 1, Push(0, d3)).Some?;
    var d2 := HexValue(s[pos + 1]).value;
    assert HexDigits(s, pos, 2, Push(Push(0, d3), d2)).Some?;
    var d1 := HexValue(s[pos + 2]).value;
    assert HexDigits(s, pos, 3, Push(Push(Push(0, d3), d2), d1)).Some?;
    var d0 := HexValue(s[pos + 3]).value;
    LastDigit(s, pos, Join(d3, d2, d1, d0));
    JoinRange(d3, d2, d1, d0);
  }

  lemma {:induction false} JoinRange(d3: bv32, d2: bv32, d1: bv32, d0: bv32)
    requires d3 <= 0xF && d2 <= 0xF && d1 <= 0xF && d0 <= 0xF
    ensures Join(d3, d2, d1, d0) <= 0xFFFF
  { }

  lemma {:induction false} HexRange(b: byte)
    ensures HexValue(b).Some? ==> b <= 0x7F && HexValue(b).value <= 0xF
  { }

  lemma {:induction false} DropAsciiRun(s: bytes, i: nat, n: nat)
    requires i + n <= |s| && (forall k :: i <= k < i + n ==> s[k] <= 0x7F) && WellFormed(s[i..])
    ensures WellFormed(s[i + n..])
    decreases n
  {
    if n > 0 {
      DropAscii(s, i);
      DropAsciiRun(s, i + 1, n - 1);
    }
  }

  lemma {:induction false} EncodeWellFormed(cp: bv32)
    requires IsScalar(cp)
    ensures WellFormed(Encode(cp))
  {
    DecodeOne(cp);
  }

  // Appending something well-formed to the left of a well-formed rest.
  lemma {:induction false} WellFormedConcat(s: bytes, t: bytes)
    requires WellFormed(s) && WellFormed(t)
    ensures WellFormed(s + t)
  {
    DecodeConcat(s, t);
  }

  lemma {:induction false} SingleWellFormed(u: bv32)
    requires u <= 0xFFFF
    ensures WellFormed(Single(u))
  {
    if IsHigh(u) || IsLow(u) { EncodeWellFormed(0xFFFD); } else { EncodeWellFormed(u); }
  }

  // An escaped character is ASCII, or starts a longer one whose other bytes
  // the loop copies.
  lemma {:induction false} ShortOf(c: byte)
    ensures c <= 0x7F ==> Short(c) <= 0x7F
    ensures c > 0x7F ==> Short(c) == c && c != BACKSLASH
  { }

  lemma {:induction false} OneByte(b: byte)
    requires b <= 0x7F
    ensures WellFormed([b])
  {
    assert [b] == [b] + [];
    Ascii(b, []);
    DecodeEmpty();
  }

  // The bytes of a character of two bytes or more are all above 0x7F.
  lemma {:induction false} LongCharBytes(s: bytes, k: nat)
    requires CharLength(s) > 1 && k < CharLength(s)
    ensures s[k] > 0x7F && s[k] != BACKSLASH
  { }

  lemma {:induction false} FirstChar(s: bytes)
    requires s != [] && WellFormed(s)
    ensures CharLength(s) > 0 && WellFormed(s[..CharLength(s)]) && WellFormed(s[CharLength(s)..])
    ensures CharLength(s) == 1 <==> s[0] <= 0x7F
  {
    var n := CharLength(s);
    hide Encode, CharScalar;
    EncodeChar(s);
    EncodeWellFormed(CharScalar(s));
  }

  lemma {:induction false} LongCharResult(s: bytes, i: nat)
    requires i < |s| && s[i] > 0x7F && WellFormed(s[i..])
    ensures WellFormed(UnescapeFrom(s, i))
    decreases |s| - i, 0
  {
    hide CharLength, Decode, UnescapeFrom;
    var t := s[i..];
    var n := CharLength(t);
    FirstChar(t);
    forall k | i <= k < i + n
      ensures s[k] != BACKSLASH
    {
      LongCharBytes(t, k - i);
      assert t[k - i] == s[k];
    }
    CopyRun(s, i, n);
    assert t[n..] == s[i + n..] && t[..n] == s[i..i + n];
    ResultWellFormed(s, i + n);
    WellFormedConcat(s[i..i + n], UnescapeFrom(s, i + n));
  }

  lemma {:induction false} UnicodeResult(s: bytes, i: nat)
    requires i + 1 < |s| && s[i] == BACKSLASH && s[i + 1] == LETTER_U && WellFormed(s[i..])
    ensures WellFormed(UnicodeStep(s, i).out) && WellFormed(s[UnicodeStep(s, i).next..])
  {
    hide ParseU16, Decode, Encode, IsHigh, IsLow, Combine, Single;
    DropAsciiRun(s, i, 2);
    OneByte(0x3F);
    var p := ParseU16(s, i + 2);
    if p.Some? {
      HexIsAscii(s, i + 2);
      DropAsciiRun(s, i + 2, 4);
      SingleWellFormed(p.value);
      if IsHigh(p.value) && i + 7 < |s| && s[i + 6] == BACKSLASH && s[i + 7] == LETTER_U {
        var q := ParseU16(s, i + 8);
        if q.Some? && IsLow(q.value) {
          HexIsAscii(s, i + 8);
          DropAsciiRun(s, i + 6, 6);
          PairWellFormed(p.value, q.value);
        }
      }
    }
  }

  lemma {:induction false} PairWellFormed(h: bv32, l: bv32)
    requires IsHigh(h) && IsLow(l)
    ensures WellFormed(Encode(Combine(h, l)))
  {
    hide Encode, Decode, Combine, HighOf, LowOf;
    ScalarOfPair(h, l);
    EncodeWellFormed(Combine(h, l));
  }

  lemma {:induction false} ResultWellFormed(s: bytes, i: nat)
    requires i <= |s| && WellFormed(s[i..])
    ensures WellFormed(UnescapeFrom(s, i))
    decreases |s| - i, 1
  {
    hide Decode, UnicodeStep, Short;
    if i == |s| {
      DecodeEmpty();
    } else if s[i] > 0x7F {
      LongCharResult(s, i);
    } else if s[i] != BACKSLASH || i + 1 == |s| {
      DropAscii(s, i);
      ResultWellFormed(s, i + 1);
      OneByte(s[i]);
      WellFormedConcat([s[i]], UnescapeFrom(s, i + 1));
    } else if s[i + 1] == LETTER_U {
      UnicodeResult(s, i);
      ResultWellFormed(s, UnicodeStep(s, i).next);
      WellFormedConcat(UnicodeStep(s, i).out, UnescapeFrom(s, UnicodeStep(s, i).next));
    } else {
      DropAscii(s, i);
      ShortOf(s[i + 1]);
      if s[i + 1] > 0x7F {
        LongCharResult(s, i + 1);
        assert UnescapeFrom(s, i) == UnescapeFrom(s, i + 1);
      } else {
        DropAscii(s, i + 1);
        ResultWellFormed(s, i + 2);
        OneByte(Short(s[i + 1]));
        WellFormedConcat([Short(s[i + 1])], UnescapeFrom(s, i + 2));
      }
    }
  }

  /** Bad hex, lone surrogates, unknown escapes, a trailing backslash: the result stays UTF-8. */
  lemma {:induction false} UnescapeKeepsUtf8(s: bytes)
    requires WellFormed(s)
    ensures WellFormed(Unescaped(s))
  {
    assert s[0..] == s;
    ResultWellFormed(s, 0);
  }
}
