/**
  The recogniser of StrictJson accepts exactly the texts of JsonGrammar: a tree
  can be read off every accepted range, and every rendered tree is accepted up
  to its own last byte, with its own number of items.
*/
module StrictJsonProof {
  import opened Bytes
  import opened JsonGrammar
  import opened StrictJson

  // A number or literal must be followed by something that cannot extend it;
  // inside brackets that is a blank, a comma or a closing bracket.
  predicate Follow(s: bytes, j: nat) { j == |s| || (j < |s| && !In(Scalar, s[j])) }

  lemma {:induction false} BlankPrefix(s: bytes, i: nat, w: bytes, j: nat)
    requires At(s, i, w) && Blank(w) && j == i + |w|
    requires j < |s| ==> !IsSpace(s[j])
    ensures SkipBlanks(s, i) == j
  {
    forall k | i <= k < j
      ensures In(Space, s[k])
    {
      AtIndex(s, i, w, k - i);
    }
    SkipWhileIs(Space, s, i, j);
  }

  lemma {:induction false} NoBlank(s: bytes, i: nat)
    requires i <= |s| && (i < |s| ==> !IsSpace(s[i]))
    ensures SkipBlanks(s, i) == i
  {
    SkipWhileIs(Space, s, i, i);
  }

  lemma {:induction false} DigitPrefix(s: bytes, i: nat, ds: bytes, j: nat)
    requires At(s, i, ds) && All(Digit, ds) && j == i + |ds|
    requires j < |s| ==> !IsDigit(s[j])
    ensures SkipWhile(Digit, s, i) == j
  {
    forall k | i <= k < j
      ensures In(Digit, s[k])
    {
      AtIndex(s, i, ds, k - i);
    }
    SkipWhileIs(Digit, s, i, j);
  }

  // ----------------------------------------------------------- completeness

  lemma {:induction false} CharsComplete(s: bytes, i: nat, cs: seq<StrChar>)
    requires ValidChars(cs) && At(s, i, RenderChars(cs) + [QUOTE])
    ensures StringTail(s, i) == Some(i + |RenderChars(cs)| + 1)
    decreases |cs|
  {
    hide At;
    if cs == [] {
      AtIndex(s, i, [] + [QUOTE], 0);
    } else {
      var c, rest := RenderChar(cs[0]), RenderChars(cs[1..]) + [QUOTE];
      assert RenderChars(cs) + [QUOTE] == c + rest;
      AtConcat(s, i, c, rest);
      CharsComplete(s, i + |c|, cs[1..]);
      assert ValidChar(cs[0]);
      AtIndex(s, i, c, 0);
      if !cs[0].Plain? { AtIndex(s, i, c, 1); }
      if cs[0].Unicode? {
        AtIndex(s, i, c, 2);
        AtIndex(s, i, c, 3);
        AtIndex(s, i, c, 4);
        AtIndex(s, i, c, 5);
      }
    }
  }

  lemma {:induction false} StringComplete(s: bytes, i: nat, cs: seq<StrChar>)
    requires ValidChars(cs) && At(s, i, RenderString(cs))
    ensures StringEnd(s, i) == Some(i + |RenderString(cs)|)
    ensures s[i] == QUOTE
  {
    AtConcat(s, i, [QUOTE], RenderChars(cs) + [QUOTE]);
    AtIndex(s, i, [QUOTE], 0);
    CharsComplete(s, i + 1, cs);
  }

  lemma {:induction false} ExponentComplete(s: bytes, i: nat, x: Option<Exponent>)
    requires x.Some? ==> ValidExponent(x.value)
    requires At(s, i, RenderExponent(x)) && Follow(s, i + |RenderExponent(x)|)
    ensures ExponentEnd(s, i) == Some(i + |RenderExponent(x)|)
    ensures i < |s| ==> !IsDigit(s[i]) && s[i] != DOT
  {
    hide At, SkipWhile, Follow, ExponentEnd;
    match x
    case None => NoExponent(s, i);
    case Some(e) =>
      var sign := if e.sign.Some? then [e.sign.value] else [];
      AtConcat(s, i, [e.marker], sign + e.digits);
      AtIndex(s, i, [e.marker], 0);
      AtConcat(s, i + 1, sign, e.digits);
      FirstDigit(s, i + 1 + |sign|, e.digits);
      if e.sign.Some? { SignedExponent(s, i, e); } else { PlainExponent(s, i, e); }
  }

  lemma {:induction false} NoExponent(s: bytes, i: nat)
    requires i <= |s| && Follow(s, i)
    ensures ExponentEnd(s, i) == Some(i)
    ensures i < |s| ==> !IsDigit(s[i]) && s[i] != DOT
  { }

  lemma {:induction false} FirstDigit(s: bytes, d: nat, digits: bytes)
    requires At(s, d, digits) && Digits(digits)
    ensures d < |s| && IsDigit(s[d])
  {
    hide At;
    AtIndex(s, d, digits, 0);
    assert In(Digit, digits[0]);
  }

  lemma {:induction false} SignedExponent(s: bytes, i: nat, e: Exponent)
    requires ValidExponent(e) && e.sign.Some? && i < |s| && s[i] == e.marker
    requires At(s, i + 1, [e.sign.value]) && At(s, i + 2, e.digits) && i + 2 < |s| && IsDigit(s[i + 2])
    requires Follow(s, i + 2 + |e.digits|)
    ensures ExponentEnd(s, i) == Some(i + 2 + |e.digits|)
    ensures !IsDigit(s[i]) && s[i] != DOT
  {
    hide At, SkipWhile;
    AtIndex(s, i + 1, [e.sign.value], 0);
    DigitPrefix(s, i + 2, e.digits, i + 2 + |e.digits|);
  }

  lemma {:induction false} PlainExponent(s: bytes, i: nat, e: Exponent)
    requires ValidExponent(e) && e.sign == None && i < |s| && s[i] == e.marker
    requires At(s, i + 1, e.digits) && i + 1 < |s| && IsDigit(s[i + 1])
    requires Follow(s, i + 1 + |e.digits|)
    ensures ExponentEnd(s, i) == Some(i + 1 + |e.digits|)
    ensures !IsDigit(s[i]) && s[i] != DOT
  {
    hide At, SkipWhile;
    DigitPrefix(s, i + 1, e.digits, i + 1 + |e.digits|);
  }

  lemma {:induction false} FractionComplete(s: bytes, i: nat, f: Option<bytes>, x: Option<Exponent>)
    requires (f.Some? ==> Digits(f.value)) && (x.Some? ==> ValidExponent(x.value))
    requires At(s, i, RenderFraction(f) + RenderExponent(x))
    requires Follow(s, i + |RenderFraction(f)| + |RenderExponent(x)|)
    ensures FractionEnd(s, i) == Some(i + |RenderFraction(f)| + |RenderExponent(x)|)
    ensures i < |s| ==> !IsDigit(s[i])
  {
    hide At, SkipWhile, ExponentEnd, RenderExponent;
    AtConcat(s, i, RenderFraction(f), RenderExponent(x));
    ExponentComplete(s, i + |RenderFraction(f)|, x);
    if f.Some? {
      AtConcat(s, i, [DOT], f.value);
      AtIndex(s, i, [DOT], 0);
      DigitPrefix(s, i + 1, f.value, i + 1 + |f.value|);
    }
  }

  lemma {:induction false} NumberComplete(s: bytes, i: nat, n: Number)
    requires ValidNumber(n) && At(s, i, RenderNumber(n)) && Follow(s, i + |RenderNumber(n)|)
    ensures NumberEnd(s, i) == Some(i + |RenderNumber(n)|)
    ensures s[i] == MINUS || IsDigit(s[i])
  {
    hide At, SkipWhile, FractionEnd, RenderFraction, RenderExponent;
    var sign := if n.negative then [MINUS] else [];
    var tail := RenderFraction(n.fraction) + RenderExponent(n.exponent);
    AtConcat(s, i, sign, n.whole + tail);
    var d := i + |sign|;
    AtConcat(s, d, n.whole, tail);
    if n.negative { AtIndex(s, i, sign, 0); }
    AtIndex(s, d, n.whole, 0);
    assert IsDigit(n.whole[0]) by { assert In(Digit, n.whole[0]); }
    FractionComplete(s, d + |n.whole|, n.fraction, n.exponent);
    if n.whole[0] != ZERO { DigitPrefix(s, d, n.whole, d + |n.whole|); }
  }

  // The first byte of a value tells its kind and is never a blank, a comma, a
  // colon or a closing bracket.
  predicate Starts(b: byte) {
    && !IsSpace(b) && b != COMMA && b != COLON && b != RBRACKET && b != RBRACE
  }

  lemma {:induction false} ValueComplete(s: bytes, i: nat, v: Value)
    requires Valid(v) && At(s, i, Render(v)) && Follow(s, i + |Render(v)|)
    ensures ValueEnd(s, i) == Some(i + |Render(v)|)
    ensures Starts(s[i])
    decreases v, 1
  {
    hide At, StringEnd, NumberEnd, ObjectEnd, ArrayEnd, SkipBlanks, RenderString, RenderNumber;
    match v {
    case Str(cs) => StringComplete(s, i, cs);
    case Num(n) => NumberComplete(s, i, n);
    case True => AtIndex(s, i, TRUE, 0);
    case False => AtIndex(s, i, FALSE, 0);
    case Null => AtIndex(s, i, NULL, 0);
    case Obj(pad, ms) => ObjectComplete(s, i, pad, ms);
    case Arr(pad, its) => ArrayComplete(s, i, pad, its);
    }
    NoBlank(s, i);
  }

  lemma {:induction false} ValueSkipsBlanks(s: bytes, i: nat)
    requires i <= |s|
    ensures ValueEnd(s, i) == ValueEnd(s, SkipBlanks(s, i))
  {
    NoBlank(s, SkipBlanks(s, i));
    hide SkipBlanks, StringEnd, NumberEnd, ObjectEnd, ArrayEnd, LiteralEnd;
  }

  lemma {:induction false} ItemComplete(s: bytes, i: nat, it: Item)
    requires ValidItem(it) && At(s, i, RenderItem(it))
    requires i + |RenderItem(it)| < |s| && !In(Scalar, s[i + |RenderItem(it)|]) && !IsSpace(s[i + |RenderItem(it)|])
    ensures ItemEnd(s, i) == ItemEnd(s, SkipBlanks(s, i)) == Some(i + |RenderItem(it)|)
    ensures SkipBlanks(s, i) == i + |it.before| < |s| && Starts(s[i + |it.before|])
    decreases it, 2
  {
    hide At, ValueEnd, SkipBlanks, Render, Valid, SkipWhile;
    var v := i + |it.before|;
    AtConcat(s, i, it.before, Render(it.value) + it.after);
    AtConcat(s, v, Render(it.value), it.after);
    var e := v + |Render(it.value)|;
    if it.after != [] {
      AtIndex(s, e, it.after, 0);
      assert In(Space, it.after[0]);
    }
    ValueComplete(s, v, it.value);
    BlankPrefix(s, i, it.before, v);
    NoBlank(s, v);
    ValueSkipsBlanks(s, i);
    BlankPrefix(s, e, it.after, i + |RenderItem(it)|);
  }

  lemma {:induction false} ItemsComplete(s: bytes, i: nat, its: seq<Item>)
    requires its != [] && (forall it | it in its :: ValidItem(it))
    requires At(s, i, RenderItems(its) + [RBRACKET])
    ensures SkipBlanks(s, i) < |s| && Starts(s[SkipBlanks(s, i)])
    ensures ItemsEnd(s, SkipBlanks(s, i)) == Some(i + |RenderItems(its)| + 1)
    ensures ItemCount(s, SkipBlanks(s, i)) == |its|
    decreases its, 0
  {
    hide At, ItemEnd, SkipBlanks, RenderItem;
    var first := RenderItem(its[0]);
    var e := i + |first|;
    assert ValidItem(its[0]);
    if |its| == 1 {
      AtConcat(s, i, first, [RBRACKET]);
      AtIndex(s, e, [RBRACKET], 0);
      ItemComplete(s, i, its[0]);
    } else {
      var rest := RenderItems(its[1..]) + [RBRACKET];
      assert RenderItems(its) + [RBRACKET] == first + ([COMMA] + rest);
      AtConcat(s, i, first, [COMMA] + rest);
      AtConcat(s, e, [COMMA], rest);
      AtIndex(s, e, [COMMA], 0);
      ItemComplete(s, i, its[0]);
      ItemsComplete(s, e + 1, its[1..]);
    }
  }

  lemma {:induction false} ArrayComplete(s: bytes, i: nat, pad: bytes, its: seq<Item>)
    requires Valid(Arr(pad, its)) && At(s, i, Render(Arr(pad, its)))
    ensures s[i] == LBRACKET
    ensures ArrayEnd(s, i) == Some(i + |Render(Arr(pad, its))|)
    ensures ArrayCount(s, i) == |its|
    decreases its, 1
  {
    hide At, ItemsEnd, ItemCount, SkipBlanks, RenderItems;
    var inner := if its == [] then pad else RenderItems(its);
    AtConcat(s, i, [LBRACKET], inner + [RBRACKET]);
    AtIndex(s, i, [LBRACKET], 0);
    if its == [] {
      AtConcat(s, i + 1, pad, [RBRACKET]);
      AtIndex(s, i + 1 + |pad|, [RBRACKET], 0);
      BlankPrefix(s, i + 1, pad, i + 1 + |pad|);
    } else {
      ItemsComplete(s, i + 1, its);
    }
  }

  lemma {:induction false} MemberComplete(s: bytes, i: nat, m: Member)
    requires ValidMember(m) && At(s, i, RenderMember(m))
    requires i + |RenderMember(m)| < |s| && !In(Scalar, s[i + |RenderMember(m)|]) && !IsSpace(s[i + |RenderMember(m)|])
    ensures SkipBlanks(s, i) == i + |m.beforeKey| < |s| && s[i + |m.beforeKey|] == QUOTE
    ensures MemberEnd(s, SkipBlanks(s, i)) == Some(i + |RenderMember(m)|)
    decreases m, 0
  {
    hide At, ItemEnd, StringEnd, SkipBlanks, RenderItem, RenderString;
    var item := [COLON] + RenderItem(m.item);
    var k := i + |m.beforeKey|;
    var q := k + |RenderString(m.key)|;
    var c := q + |m.beforeColon|;
    AtConcat(s, i, m.beforeKey, RenderString(m.key) + (m.beforeColon + item));
    AtConcat(s, k, RenderString(m.key), m.beforeColon + item);
    AtConcat(s, q, m.beforeColon, item);
    AtConcat(s, c, [COLON], RenderItem(m.item));
    AtIndex(s, c, [COLON], 0);
    StringComplete(s, k, m.key);
    BlankPrefix(s, i, m.beforeKey, k);
    BlankPrefix(s, q, m.beforeColon, c);
    ItemComplete(s, c + 1, m.item);
  }

  lemma {:induction false} MembersComplete(s: bytes, i: nat, ms: seq<Member>)
    requires ms != [] && (forall m | m in ms :: ValidMember(m))
    requires At(s, i, RenderMembers(ms) + [RBRACE])
    ensures SkipBlanks(s, i) < |s| && s[SkipBlanks(s, i)] == QUOTE
    ensures MembersEnd(s, SkipBlanks(s, i)) == Some(i + |RenderMembers(ms)| + 1)
    decreases ms, 0
  {
    hide At, MemberEnd, SkipBlanks, RenderMember;
    var first := RenderMember(ms[0]);
    var e := i + |first|;
    assert ValidMember(ms[0]);
    if |ms| == 1 {
      AtConcat(s, i, first, [RBRACE]);
      AtIndex(s, e, [RBRACE], 0);
      MemberComplete(s, i, ms[0]);
    } else {
      var rest := RenderMembers(ms[1..]) + [RBRACE];
      assert RenderMembers(ms) + [RBRACE] == first + ([COMMA] + rest);
      AtConcat(s, i, first, [COMMA] + rest);
      AtConcat(s, e, [COMMA], rest);
      AtIndex(s, e, [COMMA], 0);
      MemberComplete(s, i, ms[0]);
      MembersComplete(s, e + 1, ms[1..]);
    }
  }

  lemma {:induction false} ObjectComplete(s: bytes, i: nat, pad: bytes, ms: seq<Member>)
    requires Valid(Obj(pad, ms)) && At(s, i, Render(Obj(pad, ms)))
    ensures s[i] == LBRACE
    ensures ObjectEnd(s, i) == Some(i + |Render(Obj(pad, ms))|)
    decreases ms, 1
  {
    hide At, MembersEnd, SkipBlanks, RenderMembers;
    var inner := if ms == [] then pad else RenderMembers(ms);
    AtConcat(s, i, [LBRACE], inner + [RBRACE]);
    AtIndex(s, i, [LBRACE], 0);
    if ms == [] {
      AtConcat(s, i + 1, pad, [RBRACE]);
      AtIndex(s, i + 1 + |pad|, [RBRACE], 0);
      BlankPrefix(s, i + 1, pad, i + 1 + |pad|);
    } else {
      MembersComplete(s, i + 1, ms);
    }
  }

  // -------------------------------------------------------------- soundness

  lemma {:induction false} ReadBlank(s: bytes, i: nat) returns (w: bytes)
    requires i <= |s|
    ensures At(s, i, w) && Blank(w) && i + |w| == SkipBlanks(s, i)
  {
    w := s[i..SkipBlanks(s, i)];
  }

  lemma {:induction false} ReadByte(s: bytes, i: nat, b: byte)
    requires i < |s| && s[i] == b
    ensures At(s, i, [b])
  {
    AtSlice(s, i, i + 1);
  }

  lemma {:induction false} ReadChars(s: bytes, i: nat) returns (cs: seq<StrChar>)
    requires i <= |s| && StringTail(s, i).Some?
    ensures ValidChars(cs) && At(s, i, RenderChars(cs) + [QUOTE])
    ensures i + |RenderChars(cs)| + 1 == StringTail(s, i).value
    decreases |s| - i
  {
    if s[i] == QUOTE {
      cs := [];
      ReadByte(s, i, QUOTE);
      assert RenderChars([]) + [QUOTE] == [QUOTE];
    } else {
      var c := if s[i] != BACKSLASH then Plain(s[i])
               else if s[i + 1] != LETTER_U then Short(s[i + 1])
               else Unicode(s[i + 2], s[i + 3], s[i + 4], s[i + 5]);
      var k := i + |RenderChar(c)|;
      assert At(s, i, RenderChar(c));
      var rest := ReadChars(s, k);
      cs := [c] + rest;
      ReadCharsCons(s, i, c, rest);
    }
  }

  lemma {:induction false} ReadCharsCons(s: bytes, i: nat, c: StrChar, rest: seq<StrChar>)
    requires At(s, i, RenderChar(c)) && At(s, i + |RenderChar(c)|, RenderChars(rest) + [QUOTE])
    ensures RenderChars([c] + rest) == RenderChar(c) + RenderChars(rest)
    ensures At(s, i, RenderChars([c] + rest) + [QUOTE])
  {
    hide At, RenderChar;
    AtConcat(s, i, RenderChar(c), RenderChars(rest) + [QUOTE]);
    assert ([c] + rest)[0] == c && ([c] + rest)[1..] == rest;
    assert RenderChars([c] + rest) + [QUOTE] == RenderChar(c) + (RenderChars(rest) + [QUOTE]);
  }

  lemma {:induction false} ReadString(s: bytes, i: nat) returns (cs: seq<StrChar>)
    requires i <= |s| && StringEnd(s, i).Some?
    ensures ValidChars(cs) && At(s, i, RenderString(cs))
    ensures i + |RenderString(cs)| == StringEnd(s, i).value
  {
    cs := ReadChars(s, i + 1);
    ReadByte(s, i, QUOTE);
    AtConcat(s, i, [QUOTE], RenderChars(cs) + [QUOTE]);
  }

  lemma {:induction false} ReadDigits(s: bytes, i: nat) returns (ds: bytes)
    requires i <= |s|
    ensures At(s, i, ds) && All(Digit, ds) && i + |ds| == SkipWhile(Digit, s, i)
  {
    ds := s[i..SkipWhile(Digit, s, i)];
  }

  lemma {:induction false} ReadExponent(s: bytes, i: nat) returns (x: Option<Exponent>)
    requires i <= |s| && ExponentEnd(s, i).Some?
    ensures x.Some? ==> ValidExponent(x.value)
    ensures At(s, i, RenderExponent(x)) && i + |RenderExponent(x)| == ExponentEnd(s, i).value
  {
    hide At, SkipWhile;
    x := None;
    AtSlice(s, i, i);
    if i < |s| && (s[i] == 0x65 || s[i] == 0x45) {
      var signed := i + 1 < |s| && (s[i + 1] == PLUS || s[i + 1] == MINUS);
      var d := if signed then i + 2 else i + 1;
      var ds := ReadDigits(s, d);
      var e := Exponent(s[i], if signed then Some(s[i + 1]) else None, ds);
      x := Some(e);
      ReadByte(s, i, s[i]);
      AtSlice(s, i + 1, d);
      ExponentParts(s, i, e);
    }
  }

  lemma {:induction false} ExponentParts(s: bytes, i: nat, e: Exponent)
    requires At(s, i, [e.marker])
    requires e.sign.Some? ==> At(s, i + 1, [e.sign.value])
    requires At(s, if e.sign.Some? then i + 2 else i + 1, e.digits)
    ensures At(s, i, RenderExponent(Some(e)))
  {
    hide At;
    var sign := if e.sign.Some? then [e.sign.value] else [];
    if e.sign.None? { AtSlice(s, i + 1, i + 1); }
    AtConcat(s, i + 1, sign, e.digits);
    AtConcat(s, i, [e.marker], sign + e.digits);
  }

  lemma {:induction false} ReadFraction(s: bytes, i: nat) returns (f: Option<bytes>, x: Option<Exponent>)
    requires i <= |s| && FractionEnd(s, i).Some?
    ensures (f.Some? ==> Digits(f.value)) && (x.Some? ==> ValidExponent(x.value))
    ensures At(s, i, RenderFraction(f) + RenderExponent(x))
    ensures i + |RenderFraction(f) + RenderExponent(x)| == FractionEnd(s, i).value
  {
    hide At, SkipWhile, ExponentEnd, RenderExponent;
    f := None;
    AtSlice(s, i, i);
    var e := i;
    if i < |s| && s[i] == DOT {
      var ds := ReadDigits(s, i + 1);
      f := Some(ds);
      e := i + 1 + |ds|;
      ReadByte(s, i, DOT);
      AtConcat(s, i, [DOT], ds);
    }
    x := ReadExponent(s, e);
    AtConcat(s, i, RenderFraction(f), RenderExponent(x));
  }

  lemma {:induction false} ReadNumber(s: bytes, i: nat) returns (n: Number)
    requires i <= |s| && NumberEnd(s, i).Some?
    ensures ValidNumber(n) && At(s, i, RenderNumber(n)) && i + |RenderNumber(n)| == NumberEnd(s, i).value
  {
    hide At, SkipWhile, FractionEnd, RenderFraction, RenderExponent;
    var negative := s[i] == MINUS;
    var d := if negative then i + 1 else i;
    AtSlice(s, i, d);
    var whole;
    if s[d] == ZERO {
      whole := [ZERO];
      ReadByte(s, d, ZERO);
    } else {
      whole := ReadDigits(s, d);
      AtIndex(s, d, whole, 0);
    }
    var f, x := ReadFraction(s, d + |whole|);
    n := Number(negative, whole, f, x);
    var tail := RenderFraction(f) + RenderExponent(x);
    AtConcat(s, d, whole, tail);
    AtConcat(s, i, s[i..d], whole + tail);
  }

  lemma {:induction false} ReadValue(s: bytes, i: nat) returns (w: bytes, v: Value)
    requires i <= |s| && ValueEnd(s, i).Some?
    ensures Blank(w) && Valid(v) && At(s, i, w) && At(s, i + |w|, Render(v))
    ensures i + |w| + |Render(v)| == ValueEnd(s, i).value
    decreases |s| - i, 2
  {
    hide At, StringEnd, NumberEnd, ObjectEnd, ArrayEnd, LiteralEnd, SkipBlanks, RenderString, RenderNumber;
    w := ReadBlank(s, i);
    var k := i + |w|;
    if s[k] == QUOTE {
      var cs := ReadString(s, k);
      v := Str(cs);
    } else if s[k] == LBRACE {
      var pad, ms := ReadObject(s, k);
      v := Obj(pad, ms);
    } else if s[k] == LBRACKET {
      var pad, its := ReadArray(s, k);
      v := Arr(pad, its);
    } else if s[k] == 0x74 {
      v := True;
      ReadLiteral(s, k, TRUE);
    } else if s[k] == 0x66 {
      v := False;
      ReadLiteral(s, k, FALSE);
    } else if s[k] == 0x6E {
      v := Null;
      ReadLiteral(s, k, NULL);
    } else {
      var n := ReadNumber(s, k);
      v := Num(n);
    }
  }

  lemma {:induction false} ReadLiteral(s: bytes, i: nat, lit: bytes)
    requires i <= |s| && LiteralEnd(s, i, lit).Some?
    ensures At(s, i, lit)
  { }

  lemma {:induction false} ReadItem(s: bytes, i: nat) returns (it: Item)
    requires i <= |s| && ItemEnd(s, i).Some?
    ensures ValidItem(it) && At(s, i, RenderItem(it)) && i + |RenderItem(it)| == ItemEnd(s, i).value
    decreases |s| - i, 3
  {
    hide At, ValueEnd, SkipBlanks, Render;
    var w, v := ReadValue(s, i);
    var k := i + |w|;
    var after := ReadBlank(s, k + |Render(v)|);
    it := Item(w, v, after);
    AtConcat(s, k, Render(v), after);
    AtConcat(s, i, w, Render(v) + after);
  }

  // Blanks the loop has skipped belong to the item that follows them.
  lemma {:induction false} WidenItem(s: bytes, i: nat, w: bytes, it: Item) returns (wide: Item)
    requires Blank(w) && ValidItem(it) && At(s, i, w) && At(s, i + |w|, RenderItem(it))
    ensures ValidItem(wide) && At(s, i, RenderItem(wide)) && |RenderItem(wide)| == |w| + |RenderItem(it)|
  {
    hide At, Render;
    wide := it.(before := w + it.before);
    AtConcat(s, i, w, RenderItem(it));
    assert RenderItem(wide) == w + RenderItem(it);
  }

  lemma {:induction false} ReadItems(s: bytes, i: nat) returns (its: seq<Item>)
    requires i <= |s| && ItemsEnd(s, SkipBlanks(s, i)).Some?
    ensures its != [] && (forall it | it in its :: ValidItem(it))
    ensures At(s, i, RenderItems(its) + [RBRACKET])
    ensures i + |RenderItems(its)| + 1 == ItemsEnd(s, SkipBlanks(s, i)).value
    ensures |its| == ItemCount(s, SkipBlanks(s, i))
    decreases |s| - i, 4
  {
    hide At, ItemEnd, SkipBlanks, RenderItem;
    var w := ReadBlank(s, i);
    var it := ReadItem(s, i + |w|);
    var first := WidenItem(s, i, w, it);
    var k := i + |RenderItem(first)|;
    ReadByte(s, k, s[k]);
    if s[k] == RBRACKET {
      its := [first];
      AtConcat(s, i, RenderItem(first), [RBRACKET]);
    } else {
      var rest := ReadItems(s, k + 1);
      its := [first] + rest;
      AtConcat(s, k, [COMMA], RenderItems(rest) + [RBRACKET]);
      AtConcat(s, i, RenderItem(first), [COMMA] + (RenderItems(rest) + [RBRACKET]));
      assert its[0] == first && its[1..] == rest;
      assert RenderItems(its) + [RBRACKET] == RenderItem(first) + ([COMMA] + (RenderItems(rest) + [RBRACKET]));
    }
  }

  lemma {:induction false} ReadArray(s: bytes, i: nat) returns (pad: bytes, its: seq<Item>)
    requires i <= |s| && ArrayEnd(s, i).Some?
    ensures Valid(Arr(pad, its)) && At(s, i, Render(Arr(pad, its)))
    ensures i + |Render(Arr(pad, its))| == ArrayEnd(s, i).value
    ensures |its| == ArrayCount(s, i)
    decreases |s| - i, 1
  {
    hide At, ItemsEnd, ItemCount, SkipBlanks, RenderItems;
    ReadByte(s, i, LBRACKET);
    pad := ReadBlank(s, i + 1);
    var k := i + 1 + |pad|;
    if k < |s| && s[k] == RBRACKET {
      its := [];
      ReadByte(s, k, RBRACKET);
      AtConcat(s, i + 1, pad, [RBRACKET]);
      AtConcat(s, i, [LBRACKET], pad + [RBRACKET]);
    } else {
      pad := [];
      its := ReadItems(s, i + 1);
      AtConcat(s, i, [LBRACKET], RenderItems(its) + [RBRACKET]);
    }
  }

  lemma {:induction false} ReadMember(s: bytes, i: nat) returns (m: Member)
    requires i <= |s| && MemberEnd(s, SkipBlanks(s, i)).Some?
    ensures ValidMember(m) && At(s, i, RenderMember(m)) && i + |RenderMember(m)| == MemberEnd(s, SkipBlanks(s, i)).value
    decreases |s| - i, 3
  {
    hide At, StringEnd, ItemEnd, SkipBlanks, RenderItem, RenderString;
    var w := ReadBlank(s, i);
    var k := i + |w|;
    var cs := ReadString(s, k);
    var q := k + |RenderString(cs)|;
    var u := ReadBlank(s, q);
    var c := q + |u|;
    ReadByte(s, c, COLON);
    var it := ReadItem(s, c + 1);
    m := Member(w, cs, u, it);
    AtConcat(s, c, [COLON], RenderItem(it));
    AtConcat(s, q, u, [COLON] + RenderItem(it));
    AtConcat(s, k, RenderString(cs), u + ([COLON] + RenderItem(it)));
    AtConcat(s, i, w, RenderString(cs) + (u + ([COLON] + RenderItem(it))));
  }

  lemma {:induction false} ReadMembers(s: bytes, i: nat) returns (ms: seq<Member>)
    requires i <= |s| && MembersEnd(s, SkipBlanks(s, i)).Some?
    ensures ms != [] && (forall m | m in ms :: ValidMember(m))
    ensures At(s, i, RenderMembers(ms) + [RBRACE])
    ensures i + |RenderMembers(ms)| + 1 == MembersEnd(s, SkipBlanks(s, i)).value
    decreases |s| - i, 4
  {
    hide At, MemberEnd, SkipBlanks, RenderMember;
    var first := ReadMember(s, i);
    var k := i + |RenderMember(first)|;
    ReadByte(s, k, s[k]);
    if s[k] == RBRACE {
      ms := [first];
      AtConcat(s, i, RenderMember(first), [RBRACE]);
    } else {
      var rest := ReadMembers(s, k + 1);
      ms := [first] + rest;
      AtConcat(s, k, [COMMA], RenderMembers(rest) + [RBRACE]);
      AtConcat(s, i, RenderMember(first), [COMMA] + (RenderMembers(rest) + [RBRACE]));
      assert ms[0] == first && ms[1..] == rest;
      assert RenderMembers(ms) + [RBRACE] == RenderMember(first) + ([COMMA] + (RenderMembers(rest) + [RBRACE]));
    }
  }

  lemma {:induction false} ReadObject(s: bytes, i: nat) returns (pad: bytes, ms: seq<Member>)
    requires i <= |s| && ObjectEnd(s, i).Some?
    ensures Valid(Obj(pad, ms)) && At(s, i, Render(Obj(pad, ms)))
    ensures i + |Render(Obj(pad, ms))| == ObjectEnd(s, i).value
    decreases |s| - i, 1
  {
    hide At, MembersEnd, SkipBlanks, RenderMembers;
    ReadByte(s, i, LBRACE);
    pad := ReadBlank(s, i + 1);
    var k := i + 1 + |pad|;
    if k < |s| && s[k] == RBRACE {
      ms := [];
      ReadByte(s, k, RBRACE);
      AtConcat(s, i + 1, pad, [RBRACE]);
      AtConcat(s, i, [LBRACE], pad + [RBRACE]);
    } else {
      pad := [];
      ms := ReadMembers(s, i + 1);
      AtConcat(s, i, [LBRACE], RenderMembers(ms) + [RBRACE]);
    }
  }

  // -------------------------------------------------------------- top level

  // What parse_top_level_array_size computes.
  function ArrayText(s: bytes): Option<nat> {
    var i := SkipBlanks(s, 0);
    match ArrayEnd(s, i)
    case None => None
    case Some(e) => if SkipBlanks(s, e) == |s| then Some(ArrayCount(s, i)) else None
  }

  lemma {:induction false} ArrayTextComplete(s: bytes, n: nat)
    requires IsArrayText(s, n)
    ensures ArrayText(s) == Some(n)
  {
    hide Valid, Blank, Render, ArrayText;
    var before, pad, its, after :|
      && Blank(before) && Valid(Arr(pad, its)) && Blank(after) && |its| == n
      && s == before + (Render(Arr(pad, its)) + after);
    TreeComplete(s, before, pad, its, after);
  }

  lemma {:induction false} TreeComplete(s: bytes, before: bytes, pad: bytes, its: seq<Item>, after: bytes)
    requires Blank(before) && Valid(Arr(pad, its)) && Blank(after)
    requires s == before + (Render(Arr(pad, its)) + after)
    ensures ArrayText(s) == Some(|its|)
  {
    hide At, ArrayEnd, ArrayCount, SkipBlanks, Render;
    var text := Render(Arr(pad, its));
    AtSlice(s, 0, |s|);
    assert s[0..|s|] == s;
    AtConcat(s, 0, before, text + after);
    AtConcat(s, |before|, text, after);
    ArrayComplete(s, |before|, pad, its);
    BlankPrefix(s, 0, before, |before|);
    BlankPrefix(s, |before| + |text|, after, |s|);
  }

  lemma {:induction false} ArrayTextSound(s: bytes)
    requires ArrayText(s).Some?
    ensures IsArrayText(s, ArrayText(s).value)
  {
    hide ArrayEnd, ArrayCount, SkipBlanks, Render;
    var before := ReadBlank(s, 0);
    var pad, its := ReadArray(s, |before|);
    var text := Render(Arr(pad, its));
    var after := ReadBlank(s, |before| + |text|);
    AtConcat(s, |before|, text, after);
    AtConcat(s, 0, before, text + after);
    assert s == before + (text + after);
  }

  method ParseTopLevelArraySize(s: bytes) returns (ok: bool, count: nat)
    ensures ok <==> exists n: nat :: IsArrayText(s, n)
    ensures ok ==> forall n: nat :: IsArrayText(s, n) <==> n == count
  {
    var i := SkipWs(s, 0);
    ok, i, count := ParseArray(s, i);
    if ok {
      i := SkipWs(s, i);
      ok := i == |s|;
    }
    assert ArrayText(s) == if ok then Some(count) else None;
    forall n: nat | IsArrayText(s, n)
      ensures ArrayText(s) == Some(n)
    {
      ArrayTextComplete(s, n);
    }
    if ok { ArrayTextSound(s); }
  }
}
