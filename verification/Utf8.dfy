/** UTF-8 as RFC 3629 defines it (section 3 for the bits, section 4 for the byte ranges). */
module Utf8 {
  import opened Bytes

  predicate IsScalar(cp: bv32) { cp <= 0x10FFFF && !(0xD800 <= cp <= 0xDFFF) }

  predicate Tail(b: byte) { 0x80 <= b <= 0xBF }

  predicate Two(a: byte, b: byte) { 0xC2 <= a <= 0xDF && Tail(b) }

  predicate Three(a: byte, b: byte, c: byte) {
    && 0xE0 <= a <= 0xEF && Tail(b) && Tail(c)
    && (a == 0xE0 ==> b >= 0xA0) && (a == 0xED ==> b <= 0x9F)
  }

  predicate Four(a: byte, b: byte, c: byte, d: byte) {
    && 0xF0 <= a <= 0xF4 && Tail(b) && Tail(c) && Tail(d)
    && (a == 0xF0 ==> b >= 0x90) && (a == 0xF4 ==> b <= 0x8F)
  }

  function Bits2(a: byte, b: byte): bv32 { ((a & 0x1F) as bv32 << 6) | (b & 0x3F) as bv32 }

  function Bits3(a: byte, b: byte, c: byte): bv32 {
    ((a & 0x0F) as bv32 << 12) | ((b & 0x3F) as bv32 << 6) | (c & 0x3F) as bv32
  }

  function Bits4(a: byte, b: byte, c: byte, d: byte): bv32 {
    ((a & 0x07) as bv32 << 18) | ((b & 0x3F) as bv32 << 12) | ((c & 0x3F) as bv32 << 6) | (d & 0x3F) as bv32
  }

  /** The length of the character that `s` starts with, 0 when it starts with none. */
  function CharLength(s: bytes): (n: nat)
    ensures n <= |s| && n <= 4
  {
    if |s| >= 1 && s[0] <= 0x7F then 1
    else if |s| >= 2 && Two(s[0], s[1]) then 2
    else if |s| >= 3 && Three(s[0], s[1], s[2]) then 3
    else if |s| >= 4 && Four(s[0], s[1], s[2], s[3]) then 4
    else 0
  }

  function CharScalar(s: bytes): bv32
    requires CharLength(s) > 0
  {
    var n := CharLength(s);
    if n == 1 then s[0] as bv32
    else if n == 2 then Bits2(s[0], s[1])
    else if n == 3 then Bits3(s[0], s[1], s[2])
    else Bits4(s[0], s[1], s[2], s[3])
  }

  /** The scalar values that `s` encodes; None when it is not well-formed UTF-8. */
  function Decode(s: bytes): Option<seq<bv32>>
    decreases |s|
  {
    if s == [] then Some([])
    else
      var n := CharLength(s);
      if n == 0 then None
      else
        Joined(Some([CharScalar(s)]), Decode(s[n..]))
  }

  predicate WellFormed(s: bytes) { Decode(s).Some? }

  /** append_utf8 of utils.cpp: what it appends for `cp`. */
  function Encode(cp: bv32): bytes {
    if cp <= 0x7F then [cp as byte]
    else if cp <= 0x7FF then [Lead2(cp), Low(cp)]
    else if cp <= 0xFFFF then [Lead3(cp), Low(cp >> 6), Low(cp)]
    else if cp <= 0x10FFFF then [Lead4(cp), Low(cp >> 12), Low(cp >> 6), Low(cp)]
    else [0xEF, 0xBF, 0xBD]
  }

  function Low(cp: bv32): byte { (0x80 | (cp & 0x3F)) as byte }
  function Lead2(cp: bv32): byte requires cp <= 0x7FF { (0xC0 | (cp >> 6)) as byte }
  function Lead3(cp: bv32): byte requires cp <= 0xFFFF { (0xE0 | (cp >> 12)) as byte }
  function Lead4(cp: bv32): byte requires cp <= 0x10FFFF { (0xF0 | (cp >> 18)) as byte }

  lemma {:induction false} EncodeBits2(cp: bv32)
    requires 0x7F < cp <= 0x7FF
    ensures Two(Lead2(cp), Low(cp)) && Bits2(Lead2(cp), Low(cp)) == cp
  { }

  lemma {:induction false} LowBits(cp: bv32)
    ensures Tail(Low(cp)) && (Low(cp) & 0x3F) as bv32 == cp & 0x3F
  { }

  lemma {:induction false} Lead3Bits(cp: bv32)
    requires cp <= 0xFFFF
    ensures 0xE0 <= Lead3(cp) <= 0xEF && (Lead3(cp) & 0x0F) as bv32 == cp >> 12
  { }

  lemma {:induction false} Lead3Range(cp: bv32)
    requires 0x7FF < cp <= 0xFFFF && IsScalar(cp)
    ensures Lead3(cp) == 0xE0 ==> Low(cp >> 6) >= 0xA0
    ensures Lead3(cp) == 0xED ==> Low(cp >> 6) <= 0x9F
  { }

  lemma {:induction false} Join3(cp: bv32)
    requires cp <= 0xFFFF
    ensures ((cp >> 12) << 12) | (((cp >> 6) & 0x3F) << 6) | (cp & 0x3F) == cp
  { }

  lemma {:induction false} Join3Bytes(cp: bv32, a: byte, b: byte, c: byte)
    requires cp <= 0xFFFF
    requires (a & 0x0F) as bv32 == cp >> 12 && (b & 0x3F) as bv32 == (cp >> 6) & 0x3F && (c & 0x3F) as bv32 == cp & 0x3F
    ensures Bits3(a, b, c) == cp
  {
    Join3(cp);
  }

  lemma {:induction false} EncodeBits3(cp: bv32)
    requires 0x7FF < cp <= 0xFFFF && IsScalar(cp)
    ensures Three(Lead3(cp), Low(cp >> 6), Low(cp)) && Bits3(Lead3(cp), Low(cp >> 6), Low(cp)) == cp
  {
    hide Low, Lead3, IsScalar, Bits3;
    Lead3Bits(cp);
    Lead3Range(cp);
    LowBits(cp);
    LowBits(cp >> 6);
    Join3Bytes(cp, Lead3(cp), Low(cp >> 6), Low(cp));
  }

  lemma {:induction false} Lead4Bits(cp: bv32)
    requires cp <= 0x10FFFF
    ensures 0xF0 <= Lead4(cp) <= 0xF4 && (Lead4(cp) & 0x07) as bv32 == cp >> 18
  { }

  lemma {:induction false} Lead4Range(cp: bv32)
    requires 0xFFFF < cp <= 0x10FFFF
    ensures Lead4(cp) == 0xF0 ==> Low(cp >> 12) >= 0x90
    ensures Lead4(cp) == 0xF4 ==> Low(cp >> 12) <= 0x8F
  { }

  lemma {:induction false} Join4(cp: bv32)
    requires cp <= 0x10FFFF
    ensures ((cp >> 18) << 18) | (((cp >> 12) & 0x3F) << 12) | (((cp >> 6) & 0x3F) << 6) | (cp & 0x3F) == cp
  { }

  lemma {:induction false} Join4Bytes(cp: bv32, a: byte, b: byte, c: byte, d: byte)
    requires cp <= 0x10FFFF
    requires (a & 0x07) as bv32 == cp >> 18 && (b & 0x3F) as bv32 == (cp >> 12) & 0x3F
    requires (c & 0x3F) as bv32 == (cp >> 6) & 0x3F && (d & 0x3F) as bv32 == cp & 0x3F
    ensures Bits4(a, b, c, d) == cp
  {
    Join4(cp);
  }

  lemma {:induction false} EncodeBits4(cp: bv32)
    requires 0xFFFF < cp <= 0x10FFFF
    ensures Four(Lead4(cp), Low(cp >> 12), Low(cp >> 6), Low(cp))
    ensures Bits4(Lead4(cp), Low(cp >> 12), Low(cp >> 6), Low(cp)) == cp
  {
    hide Low, Lead4, Bits4;
    Lead4Bits(cp);
    Lead4Range(cp);
    LowBits(cp);
    LowBits(cp >> 6);
    LowBits(cp >> 12);
    Join4Bytes(cp, Lead4(cp), Low(cp >> 12), Low(cp >> 6), Low(cp));
  }

  lemma {:induction false} Char1(a: byte)
    requires a <= 0x7F
    ensures IsScalar(a as bv32) && Encode(a as bv32) == [a]
  { }

  lemma {:induction false} Char2(a: byte, b: byte)
    requires Two(a, b)
    ensures IsScalar(Bits2(a, b)) && Encode(Bits2(a, b)) == [a, b]
  { }

  lemma {:induction false} Split3(a: byte, b: byte, c: byte)
    requires Three(a, b, c)
    ensures var cp := Bits3(a, b, c);
      0x7FF < cp <= 0xFFFF && IsScalar(cp) && Lead3(cp) == a && Low(cp >> 6) == b && Low(cp) == c
  { }

  lemma {:induction false} Char3(a: byte, b: byte, c: byte)
    requires Three(a, b, c)
    ensures IsScalar(Bits3(a, b, c)) && Encode(Bits3(a, b, c)) == [a, b, c]
  {
    hide Bits3, Three, IsScalar, Lead3, Low;
    Split3(a, b, c);
  }

  lemma {:induction false} Split4(a: byte, b: byte, c: byte, d: byte)
    requires Four(a, b, c, d)
    ensures var cp := Bits4(a, b, c, d);
      && 0xFFFF < cp <= 0x10FFFF && IsScalar(cp)
      && Lead4(cp) == a && Low(cp >> 12) == b && Low(cp >> 6) == c && Low(cp) == d
  { }

  lemma {:induction false} Char4(a: byte, b: byte, c: byte, d: byte)
    requires Four(a, b, c, d)
    ensures IsScalar(Bits4(a, b, c, d)) && Encode(Bits4(a, b, c, d)) == [a, b, c, d]
  {
    hide Bits4, Four, IsScalar, Lead4, Low;
    Split4(a, b, c, d);
  }

  /** One scalar value: encoding it and reading it back. */
  lemma {:induction false} DecodeEncode(cp: bv32)
    requires IsScalar(cp)
    ensures CharLength(Encode(cp)) == |Encode(cp)| > 0 && CharScalar(Encode(cp)) == cp
  {
    hide Bits2, Bits3, Bits4, Lead2, Lead3, Lead4, Low, Two, Three, Four;
    if cp <= 0x7F {
      assert (cp as byte) as bv32 == cp && cp as byte <= 0x7F;
    } else if cp <= 0x7FF {
      EncodeBits2(cp);
      assert !(Lead2(cp) <= 0x7F) by { TwoLead(Lead2(cp), Low(cp)); }
    } else if cp <= 0xFFFF {
      EncodeBits3(cp);
      ThreeLead(Lead3(cp), Low(cp >> 6), Low(cp));
    } else {
      EncodeBits4(cp);
      FourLead(Lead4(cp), Low(cp >> 12), Low(cp >> 6), Low(cp));
    }
  }

  lemma {:induction false} TwoLead(a: byte, b: byte)
    requires Two(a, b)
    ensures !(a <= 0x7F)
  { }

  lemma {:induction false} ThreeLead(a: byte, b: byte, c: byte)
    requires Three(a, b, c)
    ensures !(a <= 0x7F) && !Two(a, b)
  { }

  lemma {:induction false} FourLead(a: byte, b: byte, c: byte, d: byte)
    requires Four(a, b, c, d)
    ensures !(a <= 0x7F) && !Two(a, b) && !Three(a, b, c)
  { }

  lemma {:induction false} EncodeChar(s: bytes)
    requires CharLength(s) > 0
    ensures IsScalar(CharScalar(s)) && Encode(CharScalar(s)) == s[..CharLength(s)]
  {
    hide Bits2, Bits3, Bits4, Two, Three, Four, IsScalar, Encode;
    var n := CharLength(s);
    if n == 1 {
      Char1(s[0]);
    } else if n == 2 {
      Char2(s[0], s[1]);
    } else if n == 3 {
      Char3(s[0], s[1], s[2]);
    } else {
      Char4(s[0], s[1], s[2], s[3]);
    }
  }

  lemma {:induction false} CharLengthPrefix(s: bytes, t: bytes)
    requires CharLength(s) > 0
    ensures CharLength(s + t) == CharLength(s) && CharScalar(s + t) == CharScalar(s)
  {
    hide Bits2, Bits3, Bits4;
    var n := CharLength(s);
    assert forall k :: 0 <= k < n ==> (s + t)[k] == s[k];
    if n >= 2 { assert !(s[0] <= 0x7F); }
    if n >= 3 { assert !Two(s[0], s[1]); }
    if n >= 4 { assert !Three(s[0], s[1], s[2]); }
  }

  function Joined(x: Option<seq<bv32>>, y: Option<seq<bv32>>): Option<seq<bv32>> {
    if x.None? || y.None? then None else Some(x.value + y.value)
  }

  lemma {:induction false} DecodeConcat(s: bytes, t: bytes)
    requires Decode(s).Some?
    ensures Decode(s + t) == Joined(Decode(s), Decode(t))
    decreases |s|
  {
    hide CharLength, CharScalar;
    if s == [] {
      assert s + t == t;
      if Decode(t).Some? { assert [] + Decode(t).value == Decode(t).value; }
    } else {
      var n := CharLength(s);
      CharLengthPrefix(s, t);
      assert (s + t)[n..] == s[n..] + t;
      DecodeConcat(s[n..], t);
      JoinedAssociates([CharScalar(s)], Decode(s[n..]), Decode(t));
    }
  }

  lemma {:induction false} JoinedAssociates(head: seq<bv32>, x: Option<seq<bv32>>, y: Option<seq<bv32>>)
    ensures Joined(Some(head), Joined(x, y)) == Joined(Joined(Some(head), x), y)
  {
    if x.Some? && y.Some? {
      assert head + (x.value + y.value) == (head + x.value) + y.value;
    }
  }

  function EncodeAll(cps: seq<bv32>): bytes {
    if cps == [] then [] else Encode(cps[0]) + EncodeAll(cps[1..])
  }

  ghost predicate Scalars(cps: seq<bv32>) { forall k :: 0 <= k < |cps| ==> IsScalar(cps[k]) }

  lemma {:induction false} DecodeOne(cp: bv32)
    requires IsScalar(cp)
    ensures Decode(Encode(cp)) == Some([cp])
  {
    hide Encode, CharLength, CharScalar;
    DecodeEncode(cp);
    var e := Encode(cp);
    assert e[|e|..] == [];
    assert [cp] + [] == [cp];
  }

  /** Encoding and decoding are inverse to each other, both ways. */
  lemma {:induction false} DecodeEncodeAll(cps: seq<bv32>)
    requires Scalars(cps)
    ensures Decode(EncodeAll(cps)) == Some(cps)
  {
    hide Encode, Decode, IsScalar;
    if cps == [] {
      assert Decode([]) == Some([]) by { DecodeEmpty(); }
    } else {
      DecodeOne(cps[0]);
      DecodeEncodeAll(cps[1..]);
      DecodeConcat(Encode(cps[0]), EncodeAll(cps[1..]));
      assert [cps[0]] + cps[1..] == cps;
    }
  }

  lemma {:induction false} DecodeEmpty()
    ensures Decode([]) == Some([])
  { }

  lemma {:induction false} EncodeDecode(s: bytes)
    requires WellFormed(s)
    ensures Scalars(Decode(s).value) && EncodeAll(Decode(s).value) == s
    decreases |s|
  {
    hide Encode, CharLength, CharScalar, IsScalar;
    if s != [] {
      var n := CharLength(s);
      EncodeChar(s);
      EncodeDecode(s[n..]);
      assert Decode(s).value == [CharScalar(s)] + Decode(s[n..]).value;
      assert Decode(s).value[1..] == Decode(s[n..]).value;
      assert s == s[..n] + s[n..];
    }
  }

  // An ASCII byte is a character of its own, so a well-formed text may be cut
  // on either side of it.
  lemma {:induction false} Ascii(b: byte, t: bytes)
    requires b <= 0x7F
    ensures WellFormed([b] + t) <==> WellFormed(t)
  {
    hide Bits2, Bits3, Bits4, Two, Three, Four;
    assert CharLength([b] + t) == 1;
    assert ([b] + t)[1..] == t;
  }

  /** The characters of the examples in section 7 of RFC 3629, and one of each length at its first and last value. */
  lemma {:induction false} Examples()
    ensures Encode(0x41) == [0x41] && Encode(0x2262) == [0xE2, 0x89, 0xA2] && Encode(0x0391) == [0xCE, 0x91]
    ensures Encode(0xD55C) == [0xED, 0x95, 0x9C] && Encode(0x65E5) == [0xE6, 0x97, 0xA5]
    ensures Encode(0x233B4) == [0xF0, 0xA3, 0x8E, 0xB4]
    ensures Encode(0x7F) == [0x7F] && Encode(0x80) == [0xC2, 0x80] && Encode(0x7FF) == [0xDF, 0xBF]
    ensures Encode(0x800) == [0xE0, 0xA0, 0x80] && Encode(0xFFFF) == [0xEF, 0xBF, 0xBF]
    ensures Encode(0x10000) == [0xF0, 0x90, 0x80, 0x80] && Encode(0x10FFFF) == [0xF4, 0x8F, 0xBF, 0xBF]
  { }
}
