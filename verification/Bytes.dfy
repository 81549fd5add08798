/** Byte strings, and the scans that both JSON readers are built from. */
module Bytes {
  type byte = bv8
  type bytes = seq<byte>

  datatype Option<+T> = None | Some(value: T)

  const QUOTE: byte := 0x22
  const COMMA: byte := 0x2C
  const COLON: byte := 0x3A
  const BACKSLASH: byte := 0x5C
  const LBRACKET: byte := 0x5B
  const RBRACKET: byte := 0x5D
  const LBRACE: byte := 0x7B
  const RBRACE: byte := 0x7D
  const MINUS: byte := 0x2D
  const PLUS: byte := 0x2B
  const DOT: byte := 0x2E
  const ZERO: byte := 0x30
  const LETTER_U: byte := 0x75

  // isspace in the C locale: the four blanks of RFC 8259 plus VT and FF.
  predicate IsSpace(b: byte) { b == 0x20 || 0x09 <= b <= 0x0D }

  predicate IsDigit(b: byte) { 0x30 <= b <= 0x39 }

  predicate IsHexDigit(b: byte) { 0x30 <= b <= 0x39 || 0x41 <= b <= 0x46 || 0x61 <= b <= 0x66 }

  // The byte classes that the scanning loops run over.
  datatype Class = Space | Digit | SpaceOrColon | SpaceOrComma | Scalar

  predicate In(c: Class, b: byte) {
    if c.Digit? then IsDigit(b)
    else if c.Scalar? then !(b == COMMA || b == RBRACE || b == RBRACKET || IsSpace(b))
    else IsSpace(b) || (c.SpaceOrColon? && b == COLON) || (c.SpaceOrComma? && b == COMMA)
  }

  ghost predicate All(c: Class, t: bytes) { forall k :: 0 <= k < |t| ==> In(c, t[k]) }

  /** The index a `while (i < s.size() && p(s[i])) ++i;` loop stops at. */
  function SkipWhile(c: Class, s: bytes, i: nat): (j: nat)
    requires i <= |s|
    ensures i <= j <= |s|
    ensures forall k :: i <= k < j ==> In(c, s[k])
    ensures j < |s| ==> !In(c, s[j])
    decreases |s| - i
  {
    if i < |s| && In(c, s[i]) then SkipWhile(c, s, i + 1) else i
  }

  lemma {:induction false} SkipWhileIs(c: Class, s: bytes, i: nat, j: nat)
    requires i <= j <= |s|
    requires forall k :: i <= k < j ==> In(c, s[k])
    requires j < |s| ==> !In(c, s[j])
    ensures SkipWhile(c, s, i) == j
    decreases j - i
  {
    if i < j {
      SkipWhileIs(c, s, i + 1, j);
    }
  }

  /** `t` is written in `s` from index `i` on. */
  predicate At(s: bytes, i: nat, t: bytes): (r: bool)
    ensures r ==> i + |t| <= |s|
  {
    i + |t| <= |s| && s[i..i + |t|] == t
  }

  lemma {:induction false} AtConcat(s: bytes, i: nat, t: bytes, u: bytes)
    ensures At(s, i, t + u) <==> At(s, i, t) && At(s, i + |t|, u)
  {
    if i + |t| + |u| <= |s| {
      var m, e := i + |t|, i + |t| + |u|;
      assert s[i..e] == s[i..m] + s[m..e];
      assert s[i..m] == s[i..e][..|t|] && s[m..e] == s[i..e][|t|..];
      assert (t + u)[..|t|] == t && (t + u)[|t|..] == u;
    }
  }

  lemma {:induction false} AtIndex(s: bytes, i: nat, t: bytes, k: nat)
    requires At(s, i, t) && k < |t|
    ensures s[i + k] == t[k]
  {
    assert s[i..i + |t|][k] == t[k];
  }

  lemma {:induction false} AtSlice(s: bytes, i: nat, j: nat)
    requires i <= j <= |s|
    ensures At(s, i, s[i..j])
    ensures j == i + 1 ==> s[i..j] == [s[i]]
  { }
}
