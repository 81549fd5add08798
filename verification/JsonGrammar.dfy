/**
  JSON texts as concrete syntax trees: sections 2 to 7 of RFC 8259, with two
  widenings that ct_check.cpp makes (blanks are the six isspace bytes, and any
  byte from 0x80 up may stand in a string). A tree says nothing about parsing;
  it only renders to the bytes that it stands for.
*/
module JsonGrammar {
  import opened Bytes

  datatype StrChar =
    | Plain(b: byte)
    | Short(e: byte)
    | Unicode(h0: byte, h1: byte, h2: byte, h3: byte)

  datatype Exponent = Exponent(marker: byte, sign: Option<byte>, digits: bytes)

  datatype Number = Number(negative: bool, whole: bytes, fraction: Option<bytes>, exponent: Option<Exponent>)

  // The blank of an empty pair of brackets is `pad`; otherwise the blanks sit
  // around the items.
  datatype Value =
    | Str(chars: seq<StrChar>)
    | Num(number: Number)
    | True
    | False
    | Null
    | Obj(pad: bytes, members: seq<Member>)
    | Arr(pad: bytes, items: seq<Item>)

  datatype Item = Item(before: bytes, value: Value, after: bytes)

  datatype Member = Member(beforeKey: bytes, key: seq<StrChar>, beforeColon: bytes, item: Item)

  predicate IsShortEscape(b: byte) {
    b == 0x22 || b == 0x5C || b == 0x2F || b == 0x62 || b == 0x66 || b == 0x6E || b == 0x72 || b == 0x74
  }

  ghost predicate Blank(t: bytes) { All(Space, t) }

  ghost predicate Digits(t: bytes) { t != [] && All(Digit, t) }

  ghost predicate ValidChar(c: StrChar) {
    match c
    case Plain(b) => b >= 0x20 && b != QUOTE && b != BACKSLASH
    case Short(e) => IsShortEscape(e)
    case Unicode(h0, h1, h2, h3) => IsHexDigit(h0) && IsHexDigit(h1) && IsHexDigit(h2) && IsHexDigit(h3)
  }

  ghost predicate ValidChars(cs: seq<StrChar>) { forall k :: 0 <= k < |cs| ==> ValidChar(cs[k]) }

  ghost predicate ValidExponent(e: Exponent) {
    && (e.marker == 0x65 || e.marker == 0x45)
    && (e.sign.Some? ==> e.sign.value == PLUS || e.sign.value == MINUS)
    && Digits(e.digits)
  }

  ghost predicate ValidNumber(n: Number) {
    && Digits(n.whole)
    && (n.whole[0] == ZERO ==> |n.whole| == 1)
    && (n.fraction.Some? ==> Digits(n.fraction.value))
    && (n.exponent.Some? ==> ValidExponent(n.exponent.value))
  }

  ghost predicate Valid(v: Value)
    decreases v, 0
  {
    match v
    case Str(cs) => ValidChars(cs)
    case Num(n) => ValidNumber(n)
    case Obj(pad, ms) => Blank(pad) && (ms != [] ==> pad == []) && forall m | m in ms :: ValidMember(m)
    case Arr(pad, its) => Blank(pad) && (its != [] ==> pad == []) && forall it | it in its :: ValidItem(it)
    case _ => true
  }

  ghost predicate ValidItem(it: Item)
    decreases it, 0
  {
    Blank(it.before) && Valid(it.value) && Blank(it.after)
  }

  ghost predicate ValidMember(m: Member)
    decreases m, 0
  {
    Blank(m.beforeKey) && ValidChars(m.key) && Blank(m.beforeColon) && ValidItem(m.item)
  }

  function RenderChar(c: StrChar): bytes {
    match c
    case Plain(b) => [b]
    case Short(e) => [BACKSLASH, e]
    case Unicode(h0, h1, h2, h3) => [BACKSLASH, LETTER_U, h0, h1, h2, h3]
  }

  function RenderChars(cs: seq<StrChar>): bytes {
    if cs == [] then [] else RenderChar(cs[0]) + RenderChars(cs[1..])
  }

  function RenderString(cs: seq<StrChar>): bytes { [QUOTE] + (RenderChars(cs) + [QUOTE]) }

  function RenderFraction(f: Option<bytes>): bytes {
    match f
    case None => []
    case Some(ds) => [DOT] + ds
  }

  function RenderExponent(x: Option<Exponent>): bytes {
    match x
    case None => []
    case Some(e) => [e.marker] + ((if e.sign.Some? then [e.sign.value] else []) + e.digits)
  }

  function RenderNumber(n: Number): bytes {
    (if n.negative then [MINUS] else []) + (n.whole + (RenderFraction(n.fraction) + RenderExponent(n.exponent)))
  }

  const TRUE: bytes := [0x74, 0x72, 0x75, 0x65]
  const FALSE: bytes := [0x66, 0x61, 0x6C, 0x73, 0x65]
  const NULL: bytes := [0x6E, 0x75, 0x6C, 0x6C]

  function Render(v: Value): bytes
    decreases v, 1
  {
    match v
    case Str(cs) => RenderString(cs)
    case Num(n) => RenderNumber(n)
    case True => TRUE
    case False => FALSE
    case Null => NULL
    case Obj(pad, ms) => [LBRACE] + ((if ms == [] then pad else RenderMembers(ms)) + [RBRACE])
    case Arr(pad, its) => [LBRACKET] + ((if its == [] then pad else RenderItems(its)) + [RBRACKET])
  }

  function RenderItem(it: Item): bytes
    decreases it, 2
  {
    it.before + (Render(it.value) + it.after)
  }

  function RenderItems(its: seq<Item>): bytes
    requires its != []
    decreases its, 0
  {
    if |its| == 1 then RenderItem(its[0]) else RenderItem(its[0]) + ([COMMA] + RenderItems(its[1..]))
  }

  function RenderMember(m: Member): bytes
    decreases m, 2
  {
    m.beforeKey + (RenderString(m.key) + (m.beforeColon + ([COLON] + RenderItem(m.item))))
  }

  function RenderMembers(ms: seq<Member>): bytes
    requires ms != []
    decreases ms, 0
  {
    if |ms| == 1 then RenderMember(ms[0]) else RenderMember(ms[0]) + ([COMMA] + RenderMembers(ms[1..]))
  }

  /** `s` is a JSON text that is an array of `n` elements. */
  ghost predicate IsArrayText(s: bytes, n: nat) {
    exists before, pad, its, after ::
      && Blank(before) && Valid(Arr(pad, its)) && Blank(after) && |its| == n
      && s == before + (Render(Arr(pad, its)) + after)
  }
}
