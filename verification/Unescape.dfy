/** JSON::unescape of utils.cpp: escapes, surrogate pairs, and the UTF-8 it writes. */
module Unescape {
  import opened Bytes
  import opened Utf8

  datatype Step = Step(out: bytes, next: nat)

  function HexValue(b: byte): Option<bv32> {
    if 0x30 <= b <= 0x39 then Some((b - 0x30) as bv32)
    else if 0x61 <= b <= 0x66 then Some((10 + b - 0x61) as bv32)
    else if 0x41 <= b <= 0x46 then Some((10 + b - 0x41) as bv32)
    else None
  }

  function Push(val: bv32, d: bv32): bv32 { (val << 4) | d }

  // The digits of parse_u16 from number `k` on, over the value read so far.
  function HexDigits(s: bytes, pos: nat, k: nat, val: bv32): Option<bv32>
    requires k <= 4 && pos + 4 <= |s|
    decreases 4 - k
  {
    if k == 4 then Some(val)
    else
      match HexValue(s[pos + k])
      case None => None
      case Some(d) => HexDigits(s, pos, k + 1, Push(val, d))
  }

  // parse_u16, with None for -1.
  function ParseU16(s: bytes, pos: nat): (r: Option<bv32>)
    ensures r.Some? ==> pos + 4 <= |s|
  {
    if pos + 4 > |s| then None else HexDigits(s, pos, 0, 0)
  }

  predicate IsHigh(u: bv32) { 0xD800 <= u <= 0xDBFF }

  predicate IsLow(u: bv32) { 0xDC00 <= u <= 0xDFFF }

  function Combine(u1: bv32, u2: bv32): bv32 { 0x10000 + (((u1 - 0xD800) << 10) | (u2 - 0xDC00)) }

  // A lone surrogate becomes U+FFFD.
  function Single(u: bv32): bytes { if IsHigh(u) || IsLow(u) then Encode(0xFFFD) else Encode(u) }

  function Short(c: byte): byte {
    if c == 0x62 then 0x08
    else if c == 0x66 then 0x0C
    else if c == 0x6E then 0x0A
    else if c == 0x72 then 0x0D
    else if c == 0x74 then 0x09
    else c
  }

  // The escape `\u`, whose backslash is at index i.
  function UnicodeStep(s: bytes, i: nat): (r: Step)
    requires i + 1 < |s|
    ensures i < r.next <= |s|
  {
    match ParseU16(s, i + 2)
    case None => Step([0x3F], i + 2)
    case Some(u1) =>
      var paired := IsHigh(u1) && i + 7 < |s| && s[i + 6] == BACKSLASH && s[i + 7] == LETTER_U;
      var u2 := if paired then ParseU16(s, i + 8) else None;
      if u2.Some? && IsLow(u2.value) then Step(Encode(Combine(u1, u2.value)), i + 12)
      else Step(Single(u1), i + 6)
  }

  // One iteration of the loop: what it appends, and where the next one starts.
  function OneStep(s: bytes, i: nat): (r: Step)
    requires i < |s|
    ensures i < r.next <= |s|
  {
    if s[i] == BACKSLASH && i + 1 < |s| then
      if s[i + 1] == LETTER_U then UnicodeStep(s, i) else Step([Short(s[i + 1])], i + 2)
    else Step([s[i]], i + 1)
  }

  function UnescapeFrom(s: bytes, i: nat): bytes
    decreases |s| - i
  {
    if i >= |s| then [] else OneStep(s, i).out + UnescapeFrom(s, OneStep(s, i).next)
  }

  function Unescaped(s: bytes): bytes { UnescapeFrom(s, 0) }

  method ParseHex(s: bytes, pos: nat) returns (ok: bool, val: bv32)
    ensures ParseU16(s, pos) == if ok then Some(val) else None
  {
    hide HexValue, Push;
    val := 0;
    if pos + 4 > |s| { return false, 0; }
    var k := 0;
    while k < 4
      invariant 0 <= k <= 4
      invariant ParseU16(s, pos) == HexDigits(s, pos, k, val)
    {
      var d := HexValue(s[pos + k]);
      if d.None? { return false, 0; }
      val := Push(val, d.value);
      k := k + 1;
    }
    return true, val;
  }

  method UnescapeText(s: bytes) returns (result: bytes)
    ensures result == Unescaped(s)
  {
    hide UnescapeFrom, OneStep, UnicodeStep;
    result := [];
    Ended(s);
    var i := 0;
    while i < |s|
      invariant i <= |s|
      invariant result + UnescapeFrom(s, i) == Unescaped(s)
    {
      ghost var from := i;
      var out;
      if s[i] == BACKSLASH && i + 1 < |s| {
        i := i + 1;
        var c := s[i];
        if c == LETTER_U {
          i, out := UnescapeUnicode(s, i);
        } else {
          out := [Short(c)];
        }
      } else {
        out := [s[i]];
      }
      i := i + 1;
      Appended(s, from, result, out, i);
      result := result + out;
    }
  }

  // One turn of the loop, and its end.
  lemma {:induction false} Appended(s: bytes, i: nat, result: bytes, out: bytes, next: nat)
    requires i < |s| && next > i
    requires if s[i] != BACKSLASH || i + 1 == |s| then out == [s[i]] && next == i + 1
      else if s[i + 1] == LETTER_U then UnicodeStep(s, i) == Step(out, next)
      else out == [Short(s[i + 1])] && next == i + 2
    ensures next <= |s|
    ensures result + UnescapeFrom(s, i) == (result + out) + UnescapeFrom(s, next)
  {
    hide UnicodeStep, Short;
    assert OneStep(s, i) == Step(out, next);
    assert result + (out + UnescapeFrom(s, next)) == (result + out) + UnescapeFrom(s, next);
  }

  lemma {:induction false} Ended(s: bytes)
    ensures UnescapeFrom(s, |s|) == [] && [] + UnescapeFrom(s, 0) == Unescaped(s)
  { }

  // The `case 'u'` block; `i` is the index of the letter, and stays on the
  // last byte the block has consumed.
  method UnescapeUnicode(s: bytes, at: nat) returns (i: nat, out: bytes)
    requires 1 <= at < |s|
    ensures UnicodeStep(s, at - 1) == Step(out, i + 1)
  {
    i := at;
    var ok, u1 := ParseHex(s, i + 1);
    if !ok { return i, [0x3F]; }
    i := i + 4;
    if IsHigh(u1) && i + 2 < |s| && s[i + 1] == BACKSLASH && s[i + 2] == LETTER_U {
      var ok2, u2 := ParseHex(s, i + 3);
      if ok2 && IsLow(u2) {
        out := Encode(Combine(u1, u2));
        i := i + 6;
        return;
      }
    }
    if IsHigh(u1) || IsLow(u1) {
      out := Encode(0xFFFD);
    } else {
      out := Encode(u1);
    }
  }
}
