/**
  The recogniser of ct_check.cpp. Each `...End` function is the index at which
  the parser of the same name stops, None when it returns false; the methods
  are the parsers themselves, loops and shared index included.
*/
module StrictJson {
  import opened Bytes
  import opened JsonGrammar

  function SkipBlanks(s: bytes, i: nat): (j: nat)
    requires i <= |s|
    ensures i <= j <= |s|
  {
    SkipWhile(Space, s, i)
  }

  function StringEnd(s: bytes, i: nat): (r: Option<nat>)
    requires i <= |s|
    ensures r.Some? ==> i < r.value <= |s|
  {
    if i < |s| && s[i] == QUOTE then StringTail(s, i + 1) else None
  }

  predicate FourHex(s: bytes, i: nat) {
    && i + 4 <= |s|
    && IsHexDigit(s[i]) && IsHexDigit(s[i + 1]) && IsHexDigit(s[i + 2]) && IsHexDigit(s[i + 3])
  }

  function StringTail(s: bytes, i: nat): (r: Option<nat>)
    requires i <= |s|
    ensures r.Some? ==> i < r.value <= |s|
    decreases |s| - i
  {
    if i == |s| then None
    else if s[i] == QUOTE then Some(i + 1)
    else if s[i] == BACKSLASH then
      if i + 1 == |s| then None
      else if s[i + 1] == LETTER_U then (if FourHex(s, i + 2) then StringTail(s, i + 6) else None)
      else if IsShortEscape(s[i + 1]) then StringTail(s, i + 2)
      else None
    else if s[i] < 0x20 then None
    else StringTail(s, i + 1)
  }

  function LiteralEnd(s: bytes, i: nat, lit: bytes): (r: Option<nat>)
    requires i <= |s|
    ensures r.Some? ==> r.value == i + |lit| <= |s|
  {
    if At(s, i, lit) then Some(i + |lit|) else None
  }

  function ExponentEnd(s: bytes, i: nat): (r: Option<nat>)
    requires i <= |s|
    ensures r.Some? ==> i <= r.value <= |s|
  {
    if i < |s| && (s[i] == 0x65 || s[i] == 0x45) then
      var d := if i + 1 < |s| && (s[i + 1] == PLUS || s[i + 1] == MINUS) then i + 2 else i + 1;
      var e := SkipWhile(Digit, s, d);
      if e == d then None else Some(e)
    else Some(i)
  }

  function FractionEnd(s: bytes, i: nat): (r: Option<nat>)
    requires i <= |s|
    ensures r.Some? ==> i <= r.value <= |s|
  {
    if i < |s| && s[i] == DOT then
      var e := SkipWhile(Digit, s, i + 1);
      if e == i + 1 then None else ExponentEnd(s, e)
    else ExponentEnd(s, i)
  }

  function NumberEnd(s: bytes, i: nat): (r: Option<nat>)
    requires i <= |s|
    ensures r.Some? ==> i < r.value <= |s|
  {
    var d := if i < |s| && s[i] == MINUS then i + 1 else i;
    if d == |s| then None
    else if s[d] == ZERO then FractionEnd(s, d + 1)
    else if IsDigit(s[d]) then FractionEnd(s, SkipWhile(Digit, s, d))
    else None
  }

  function ValueEnd(s: bytes, i: nat): (r: Option<nat>)
    requires i <= |s|
    ensures r.Some? ==> i < r.value <= |s|
    decreases |s| - i, 2
  {
    var k := SkipBlanks(s, i);
    if k == |s| then None
    else if s[k] == QUOTE then StringEnd(s, k)
    else if s[k] == LBRACE then ObjectEnd(s, k)
    else if s[k] == LBRACKET then ArrayEnd(s, k)
    else if s[k] == 0x74 then LiteralEnd(s, k, TRUE)
    else if s[k] == 0x66 then LiteralEnd(s, k, FALSE)
    else if s[k] == 0x6E then LiteralEnd(s, k, NULL)
    else NumberEnd(s, k)
  }

  // One value and the blanks after it.
  function ItemEnd(s: bytes, i: nat): (r: Option<nat>)
    requires i <= |s|
    ensures r.Some? ==> i < r.value <= |s|
    decreases |s| - i, 3
  {
    match ValueEnd(s, i)
    case None => None
    case Some(e) => Some(SkipBlanks(s, e))
  }

  function ObjectEnd(s: bytes, i: nat): (r: Option<nat>)
    requires i <= |s|
    ensures r.Some? ==> i < r.value <= |s|
    decreases |s| - i, 1
  {
    if i == |s| || s[i] != LBRACE then None
    else
      var k := SkipBlanks(s, i + 1);
      if k < |s| && s[k] == RBRACE then Some(k + 1) else MembersEnd(s, k)
  }

  // The loop of parse_object, at its head.
  function MembersEnd(s: bytes, i: nat): (r: Option<nat>)
    requires i <= |s|
    ensures r.Some? ==> i < r.value <= |s|
    decreases |s| - i, 3
  {
    match MemberEnd(s, i)
    case None => None
    case Some(k) =>
      if k == |s| then None
      else if s[k] == RBRACE then Some(k + 1)
      else if s[k] != COMMA then None
      else MembersEnd(s, SkipBlanks(s, k + 1))
  }

  // One `"key" : value` and the blanks after it.
  function MemberEnd(s: bytes, i: nat): (r: Option<nat>)
    requires i <= |s|
    ensures r.Some? ==> i < r.value <= |s|
    decreases |s| - i, 2
  {
    match StringEnd(s, i)
    case None => None
    case Some(q) =>
      var c := SkipBlanks(s, q);
      if c == |s| || s[c] != COLON then None else ItemEnd(s, c + 1)
  }

  function ArrayEnd(s: bytes, i: nat): (r: Option<nat>)
    requires i <= |s|
    ensures r.Some? ==> i < r.value <= |s|
    decreases |s| - i, 1
  {
    if i == |s| || s[i] != LBRACKET then None
    else
      var k := SkipBlanks(s, i + 1);
      if k < |s| && s[k] == RBRACKET then Some(k + 1) else ItemsEnd(s, k)
  }

  // The loop of parse_array, at its head.
  function ItemsEnd(s: bytes, i: nat): (r: Option<nat>)
    requires i <= |s|
    ensures r.Some? ==> i < r.value <= |s|
    decreases |s| - i, 4
  {
    match ItemEnd(s, i)
    case None => None
    case Some(k) =>
      if k == |s| then None
      else if s[k] == RBRACKET then Some(k + 1)
      else if s[k] != COMMA then None
      else ItemsEnd(s, SkipBlanks(s, k + 1))
  }

  // What parse_array stores through `count` when it succeeds.
  function ArrayCount(s: bytes, i: nat): nat
    requires i <= |s| && ArrayEnd(s, i).Some?
  {
    var k := SkipBlanks(s, i + 1);
    if k < |s| && s[k] == RBRACKET then 0 else ItemCount(s, k)
  }

  function ItemCount(s: bytes, i: nat): nat
    requires i <= |s| && ItemsEnd(s, i).Some?
    decreases |s| - i
  {
    var k := ItemEnd(s, i).value;
    if s[k] == RBRACKET then 1 else 1 + ItemCount(s, SkipBlanks(s, k + 1))
  }

  // ---------------------------------------------------------------- parsers

  method SkipWs(s: bytes, i: nat) returns (j: nat)
    requires i <= |s|
    ensures j == SkipBlanks(s, i)
  {
    j := i;
    while j < |s| && IsSpace(s[j])
      invariant i <= j <= |s|
      invariant forall k :: i <= k < j ==> IsSpace(s[k])
    {
      j := j + 1;
    }
    SkipWhileIs(Space, s, i, j);
  }

  method SkipDigits(s: bytes, i: nat) returns (j: nat)
    requires i <= |s|
    ensures j == SkipWhile(Digit, s, i)
  {
    j := i;
    while j < |s| && IsDigit(s[j])
      invariant i <= j <= |s|
      invariant forall k :: i <= k < j ==> IsDigit(s[k])
    {
      j := j + 1;
    }
    SkipWhileIs(Digit, s, i, j);
  }

  method ParseString(s: bytes, i: nat) returns (ok: bool, j: nat)
    requires i <= |s|
    ensures i <= j <= |s|
    ensures ok <==> StringEnd(s, i).Some?
    ensures ok ==> j == StringEnd(s, i).value
  {
    if i == |s| || s[i] != QUOTE { return false, i; }
    j := i + 1;
    while j < |s|
      invariant i < j <= |s|
      invariant StringTail(s, i + 1) == StringTail(s, j)
    {
      var c := s[j];
      ghost var at := j;
      j := j + 1;
      if c == QUOTE { return true, j; }
      if c == BACKSLASH {
        if j == |s| { return false, j; }
        var esc := s[j];
        j := j + 1;
        if esc == LETTER_U {
          var n := 0;
          while n < 4
            invariant 0 <= n <= 4
            invariant at + 2 <= j == at + 2 + n <= |s|
            invariant forall k :: at + 2 <= k < j ==> IsHexDigit(s[k])
          {
            if j == |s| || !IsHexDigit(s[j]) { return false, j; }
            j := j + 1;
            n := n + 1;
          }
          assert FourHex(s, at + 2);
        } else if !IsShortEscape(esc) {
          return false, j;
        }
      } else if c < 0x20 {
        return false, j;
      }
    }
    return false, j;
  }

  method ParseLiteral(s: bytes, i: nat, lit: bytes) returns (ok: bool, j: nat)
    requires i <= |s|
    ensures i <= j <= |s|
    ensures ok <==> LiteralEnd(s, i, lit).Some?
    ensures ok ==> j == LiteralEnd(s, i, lit).value
  {
    j := i;
    if |s| - i < |lit| { return false, j; }
    if s[i..i + |lit|] != lit { return false, j; }
    j := i + |lit|;
    return true, j;
  }

  // The exponent block of parse_number.
  method ParseExponent(s: bytes, i: nat) returns (ok: bool, j: nat)
    requires i <= |s|
    ensures i <= j <= |s|
    ensures ok <==> ExponentEnd(s, i).Some?
    ensures ok ==> j == ExponentEnd(s, i).value
  {
    j := i;
    if j < |s| && (s[j] == 0x65 || s[j] == 0x45) {
      j := j + 1;
      if j < |s| && (s[j] == PLUS || s[j] == MINUS) { j := j + 1; }
      var exp := j;
      j := SkipDigits(s, exp);
      if exp == j { return false, j; }
    }
    return true, j;
  }

  // The fraction block of parse_number, and what follows it.
  method ParseFraction(s: bytes, i: nat) returns (ok: bool, j: nat)
    requires i <= |s|
    ensures i <= j <= |s|
    ensures ok <==> FractionEnd(s, i).Some?
    ensures ok ==> j == FractionEnd(s, i).value
  {
    j := i;
    if j < |s| && s[j] == DOT {
      var frac := j + 1;
      j := SkipDigits(s, frac);
      if frac == j { return false, j; }
    }
    ok, j := ParseExponent(s, j);
  }

  method ParseNumber(s: bytes, i: nat) returns (ok: bool, j: nat)
    requires i <= |s|
    ensures i <= j <= |s|
    ensures ok <==> NumberEnd(s, i).Some?
    ensures ok ==> j == NumberEnd(s, i).value
  {
    j := i;
    if j < |s| && s[j] == MINUS { j := j + 1; }
    if j == |s| { return false, j; }
    if s[j] == ZERO {
      j := j + 1;
    } else if IsDigit(s[j]) {
      j := SkipDigits(s, j);
    } else {
      return false, j;
    }
    ok, j := ParseFraction(s, j);
    return ok && j > i, j;
  }

  method ParseValue(s: bytes, i: nat) returns (ok: bool, j: nat)
    requires i <= |s|
    ensures i <= j <= |s|
    ensures ok <==> ValueEnd(s, i).Some?
    ensures ok ==> j == ValueEnd(s, i).value
    decreases |s| - i, 2
  {
    j := SkipWs(s, i);
    if j == |s| { return false, j; }
    var c := s[j];
    if c == QUOTE {
      ok, j := ParseString(s, j);
    } else if c == LBRACE {
      ok, j := ParseObject(s, j);
    } else if c == LBRACKET {
      var count;
      ok, j, count := ParseArray(s, j);
    } else if c == 0x74 {
      ok, j := ParseLiteral(s, j, TRUE);
    } else if c == 0x66 {
      ok, j := ParseLiteral(s, j, FALSE);
    } else if c == 0x6E {
      ok, j := ParseLiteral(s, j, NULL);
    } else {
      ok, j := ParseNumber(s, j);
    }
  }

  // parse_value, then the skip_ws after it.
  method ParseItem(s: bytes, i: nat) returns (ok: bool, j: nat)
    requires i <= |s|
    ensures i <= j <= |s|
    ensures ok <==> ItemEnd(s, i).Some?
    ensures ok ==> j == ItemEnd(s, i).value
    decreases |s| - i, 3
  {
    ok, j := ParseValue(s, i);
    if ok { j := SkipWs(s, j); }
  }

  // The first half of the loop body of parse_object.
  method ParseMember(s: bytes, i: nat) returns (ok: bool, j: nat)
    requires i <= |s|
    ensures i <= j <= |s|
    ensures ok <==> MemberEnd(s, i).Some?
    ensures ok ==> j == MemberEnd(s, i).value
    decreases |s| - i, 2
  {
    ok, j := ParseString(s, i);
    if !ok { return; }
    j := SkipWs(s, j);
    if j == |s| || s[j] != COLON { return false, j; }
    ok, j := ParseItem(s, j + 1);
  }

  // The loop of parse_object.
  method ParseMembers(s: bytes, i: nat) returns (ok: bool, j: nat)
    requires i <= |s|
    ensures i <= j <= |s|
    ensures ok <==> MembersEnd(s, i).Some?
    ensures ok ==> j == MembersEnd(s, i).value
    decreases |s| - i, 3
  {
    hide SkipBlanks, MemberEnd;
    j := i;
    while j < |s|
      invariant i <= j <= |s|
      invariant MembersEnd(s, i) == MembersEnd(s, j)
    {
      ok, j := ParseMember(s, j);
      if !ok { return; }
      if j == |s| { return false, j; }
      if s[j] == RBRACE { return true, j + 1; }
      if s[j] != COMMA { return false, j; }
      j := SkipWs(s, j + 1);
    }
    return false, j;
  }

  method ParseObject(s: bytes, i: nat) returns (ok: bool, j: nat)
    requires i <= |s|
    ensures i <= j <= |s|
    ensures ok <==> ObjectEnd(s, i).Some?
    ensures ok ==> j == ObjectEnd(s, i).value
    decreases |s| - i, 1
  {
    if i == |s| || s[i] != LBRACE { return false, i; }
    j := SkipWs(s, i + 1);
    if j < |s| && s[j] == RBRACE { return true, j + 1; }
    ok, j := ParseMembers(s, j);
  }

  // The loop of parse_array.
  method ParseItems(s: bytes, i: nat) returns (ok: bool, j: nat, items: nat)
    requires i <= |s|
    ensures i <= j <= |s|
    ensures ok <==> ItemsEnd(s, i).Some?
    ensures ok ==> j == ItemsEnd(s, i).value && items == ItemCount(s, i)
    decreases |s| - i, 4
  {
    hide SkipBlanks, ItemEnd;
    j, items := i, 0;
    ghost var end := ItemsEnd(s, i);
    ghost var total := if end.Some? then ItemCount(s, i) else 0;
    while j < |s|
      invariant i <= j <= |s|
      invariant end == ItemsEnd(s, j)
      invariant end.Some? ==> total == items + ItemCount(s, j)
    {
      ok, j := ParseItem(s, j);
      if !ok { return; }
      items := items + 1;
      if j == |s| { return false, j, items; }
      if s[j] == RBRACKET { return true, j + 1, items; }
      if s[j] != COMMA { return false, j, items; }
      j := SkipWs(s, j + 1);
    }
    return false, j, items;
  }

  method ParseArray(s: bytes, i: nat) returns (ok: bool, j: nat, count: nat)
    requires i <= |s|
    ensures i <= j <= |s|
    ensures ok <==> ArrayEnd(s, i).Some?
    ensures ok ==> j == ArrayEnd(s, i).value && count == ArrayCount(s, i)
    decreases |s| - i, 1
  {
    if i == |s| || s[i] != LBRACKET { return false, i, 0; }
    j := SkipWs(s, i + 1);
    if j < |s| && s[j] == RBRACKET { return true, j + 1, 0; }
    ok, j, count := ParseItems(s, j);
  }
}
