/** The response reader and the chunked-body decoder of http_client.cpp, against section 7.1 of RFC 9112. */
module Chunked {
  import opened Bytes

  const MAX_RESPONSE := 1024 * 1024
  const BUFFER := 4096
  const LONG_MAX := 0x7fff_ffff_ffff_ffff

  // ----------------------------------------------------------- the response

  // The successive results of one read call; an empty one ends the response.
  function Joined(received: seq<string>): string {
    if received == [] || received[0] == "" then "" else received[0] + Joined(received[1..])
  }

  predicate FitBuffer(received: seq<string>) { forall r :: r in received ==> |r| <= BUFFER }

  lemma {:induction false} NextRead(data: string, received: seq<string>, i: nat)
    requires i < |received| && received[i] != ""
    ensures data + Joined(received[i..]) == (data + received[i]) + Joined(received[i + 1..])
  {
    assert received[i..][1..] == received[i + 1..];
    assert data + (received[i] + Joined(received[i + 1..])) == (data + received[i]) + Joined(received[i + 1..]);
  }

  lemma {:induction false} NoMore(received: seq<string>, i: nat)
    requires i == |received| || (i < |received| && received[i] == "")
    ensures Joined(received[i..]) == ""
  { }

  /** The response is cut off within one buffer of the limit, and not at all below it. */
  method ReadResponse(received: seq<string>) returns (data: string)
    requires FitBuffer(received)
    ensures data <= Joined(received) && |data| <= 1_048_576 + 4096
    ensures |data| <= 1_048_576 ==> data == Joined(received)
  {
    hide Joined;
    data := "";
    var i := 0;
    assert received[0..] == received;
    while i < |received| && received[i] != ""
      invariant 0 <= i <= |received| && |data| <= MAX_RESPONSE
      invariant data + Joined(received[i..]) == Joined(received)
    {
      NextRead(data, received, i);
      assert received[i] in received;
      data := data + received[i];
      i := i + 1;
      if |data| > MAX_RESPONSE { return; }
    }
    NoMore(received, i);
  }

  // --------------------------------------------------------------- strtol

  predicate IsSpace(c: char) { c in " \t\n\r" || c == 11 as char || c == 12 as char }

  predicate IsHex(c: char) { '0' <= c <= '9' || 'a' <= c <= 'f' || 'A' <= c <= 'F' }

  function HexVal(c: char): (v: nat)
    requires IsHex(c)
    ensures v < 16
  {
    if c <= '9' then c as int - '0' as int
    else if c <= 'F' then c as int - 'A' as int + 10
    else c as int - 'a' as int + 10
  }

  // How many characters from the start are whitespace; how many are hex digits.
  function Spaces(s: string): (n: nat)
    ensures n <= |s|
  {
    if s == "" || !IsSpace(s[0]) then 0 else 1 + Spaces(s[1..])
  }

  function Digits(s: string): (n: nat)
    ensures n <= |s| && forall i :: 0 <= i < n ==> IsHex(s[i])
    ensures n < |s| ==> !IsHex(s[n])
  {
    if s == "" || !IsHex(s[0]) then 0 else 1 + Digits(s[1..])
  }

  predicate HexText(s: string) { forall i :: 0 <= i < |s| ==> IsHex(s[i]) }

  function HexValue(s: string): nat
    requires HexText(s)
  {
    if s == "" then 0 else 16 * HexValue(s[..|s| - 1]) + HexVal(s[|s| - 1])
  }

  function Saturated(v: int): int { if v > LONG_MAX then LONG_MAX else if v < -LONG_MAX - 1 then -LONG_MAX - 1 else v }

  function Unsigned(s: string): Option<nat> {
    var t := if |s| > 2 && s[0] == '0' && s[1] in "xX" && IsHex(s[2]) then s[2..] else s;
    var n := Digits(t);
    if n == 0 then None else Some(HexValue(t[..n]))
  }

  // strtol with base 16; None: no conversion.
  function Strtol16(s: string): Option<int> {
    var t := s[Spaces(s)..];
    var negative := t != "" && t[0] == '-';
    match Unsigned(if t != "" && t[0] in "+-" then t[1..] else t)
    case None => None
    case Some(v) =>
      var magnitude: int := v;
      Some(Saturated(if negative then -magnitude else magnitude))
  }

  // ---------------------------------------------------------- the decoder

  // Where the first CR LF is.
  function Crlf(s: string): (r: Option<nat>)
    ensures r.Some? ==> r.value + 1 < |s| && s[r.value] == '\r' && s[r.value + 1] == '\n'
    ensures forall i :: 0 <= i < |s| - 1 && (r == None || i < r.value) ==> !(s[i] == '\r' && s[i + 1] == '\n')
  {
    if |s| < 2 then None
    else if s[0] == '\r' && s[1] == '\n' then Some(0)
    else match Crlf(s[1..])
      case None => None
      case Some(i) => Some(i + 1)
  }

  // The data of the first chunk of `s`, and how far it goes with the CR LF after it.
  function FirstChunk(s: string): (r: Option<(nat, nat)>)
    ensures r.Some? ==> r.value.0 < r.value.1 <= |s|
  {
    match Crlf(s)
    case None => None
    case Some(nl) =>
      match Strtol16(s[..nl])
      case None => None
      case Some(len) => if len <= 0 || nl + 2 + len > |s| then None else Some((nl + 2, nl + 2 + len))
  }

  function Drop(s: string, n: nat): string { if n <= |s| then s[n..] else "" }

  function Decoded(s: string): string
    decreases |s|
  {
    match FirstChunk(s)
    case None => ""
    case Some((from, to)) => s[from..to] + Decoded(Drop(s, to + 2))
  }

  method Decode(body: string) returns (decoded: string)
    ensures decoded == Decoded(body)
  {
    hide Decoded, Strtol16, FirstChunk, Drop, Crlf;
    decoded := "";
    var pos := 0;
    Whole(body);
    while pos < |body|
      invariant 0 <= pos && decoded + Decoded(Drop(body, pos)) == Decoded(body)
      decreases |body| - pos
    {
      Done(body, pos);
      var nl := Crlf(body[pos..]);
      if nl == None { break; }
      var lineEnd := pos + nl.value;
      var len := Strtol16(body[pos..lineEnd]);
      if len == None || len.value < 0 { break; }
      if len.value == 0 { break; }
      ghost var start := pos;
      pos := lineEnd + 2;
      if pos + len.value > |body| { break; }
      Step(body, start, nl.value, len.value);
      Grow(decoded, body[pos..pos + len.value], Decoded(Drop(body, pos + len.value + 2)));
      decoded := decoded + body[pos..pos + len.value];
      pos := pos + len.value + 2;
    }
    if |body| <= pos { Past(body, pos); }
  }

  lemma {:induction false} Whole(body: string)
    ensures Drop(body, 0) == body
  { }

  lemma {:induction false} Past(body: string, pos: nat)
    requires |body| <= pos
    ensures Decoded(Drop(body, pos)) == ""
  {
    hide Strtol16;
  }

  // When the loop breaks there is nothing more to decode.
  lemma {:induction false} Done(body: string, pos: nat)
    requires pos <= |body|
    ensures var nl := Crlf(body[pos..]);
      nl == None ==> Decoded(Drop(body, pos)) == ""
    ensures var nl := Crlf(body[pos..]);
      nl.Some? ==> var len := Strtol16(body[pos..pos + nl.value]);
        len == None || len.value <= 0 || pos + nl.value + 2 + len.value > |body| ==> Decoded(Drop(body, pos)) == ""
  {
    hide Strtol16, Crlf;
    var nl := Crlf(body[pos..]);
    if nl.Some? { assert body[pos..][..nl.value] == body[pos..pos + nl.value]; }
  }

  lemma {:induction false} Step(body: string, pos: nat, nl: nat, len: int)
    requires 0 < len && pos + nl + 2 + len <= |body|
    requires Crlf(body[pos..]) == Some(nl) && Strtol16(body[pos..pos + nl]) == Some(len)
    ensures Decoded(Drop(body, pos))
      == body[pos + nl + 2..pos + nl + 2 + len] + Decoded(Drop(body, pos + nl + 2 + len + 2))
  {
    hide Strtol16, Crlf, Decoded, Drop;
    var s := body[pos..];
    assert s[..nl] == body[pos..pos + nl];
    Inside(body, pos, nl + 2, nl + 2 + len);
    assert FirstChunk(s) == Some((nl + 2, nl + 2 + len));
    DecodedStep(s, nl + 2, nl + 2 + len);
  }

  lemma {:induction false} DecodedStep(s: string, from: nat, to: nat)
    requires FirstChunk(s) == Some((from, to))
    ensures Decoded(s) == s[from..to] + Decoded(Drop(s, to + 2))
  {
    hide FirstChunk, Drop;
  }

  lemma {:induction false} Inside(body: string, pos: nat, a: nat, b: nat)
    requires a <= b && pos + b <= |body|
    ensures Drop(body, pos) == body[pos..]
    ensures body[pos..][a..b] == body[pos + a..pos + b]
    ensures Drop(body[pos..], b + 2) == Drop(body, pos + b + 2)
  { }

  lemma {:induction false} Grow(a: string, b: string, c: string)
    ensures a + (b + c) == (a + b) + c
  { }
}
