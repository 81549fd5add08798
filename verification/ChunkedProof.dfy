/** What decoding a chunked body means: it inverts the encoding, and degrades to a prefix. */
module ChunkedProof {
  import opened Bytes
  import opened Chunked

  // ------------------------------------------------------------- truncation

  lemma {:induction false} CrlfCut(s: string, n: nat)
    requires n <= |s|
    ensures Crlf(s[..n]) == None || Crlf(s[..n]) == Crlf(s)
  {
    if n >= 2 {
      assert s[..n][1..] == s[1..][..n - 1];
      CrlfCut(s[1..], n - 1);
    }
  }

  lemma {:induction false} FirstChunkCut(s: string, n: nat)
    requires n <= |s|
    ensures FirstChunk(s[..n]) == None || FirstChunk(s[..n]) == FirstChunk(s)
  {
    hide Strtol16, Crlf;
    CrlfCut(s, n);
    var nl := Crlf(s[..n]);
    if nl.Some? { assert s[..n][..nl.value] == s[..nl.value]; }
  }

  lemma {:induction false} PrefixGrows(a: string, b: string, c: string)
    requires b <= c
    ensures a + b <= a + c
  { }

  /** Decoding any truncation of any body yields a prefix of decoding the whole. */
  lemma {:induction false} TruncatedDecodes(s: string, n: nat)
    requires n <= |s|
    ensures Decoded(s[..n]) <= Decoded(s)
    decreases |s|
  {
    hide FirstChunk;
    FirstChunkCut(s, n);
    if FirstChunk(s[..n]).Some? {
      var (from, to) := FirstChunk(s[..n]).value;
      assert s[..n][from..to] == s[from..to];
      var rest, cut := Chunked.Drop(s, to + 2), Chunked.Drop(s[..n], to + 2);
      if to + 2 <= n {
        assert cut == rest[..n - to - 2];
        TruncatedDecodes(rest, n - to - 2);
      } else {
        Nothing();
      }
      PrefixGrows(s[from..to], Decoded(cut), Decoded(rest));
    }
  }

  lemma {:induction false} Nothing()
    ensures Decoded("") == ""
  {
    hide Strtol16;
  }

  // --------------------------------------------------------------- encoding

  // chunk = chunk-size [ chunk-ext ] CRLF chunk-data CRLF
  datatype Chunk = Chunk(size: string, ext: string, data: string)

  const CRLF := ['\r', '\n']

  function Line(size: string, ext: string): string { size + ext + CRLF }

  const LOWER_DIGITS := "0123456789abcdef"
  const UPPER_DIGITS := "0123456789ABCDEF"

  // Any hexadecimal spelling of the number, in either case, leading zeros
  // included: its last digit is n % 16, and what comes before it spells n / 16.
  predicate SizeText(size: string, n: nat)
    decreases |size|
  {
    && size != ""
    && (size[|size| - 1] == LOWER_DIGITS[n % 16] || size[|size| - 1] == UPPER_DIGITS[n % 16])
    && if |size| == 1 then n < 16 else SizeText(size[..|size| - 1], n / 16)
  }

  lemma {:induction false} DigitReads(c: char, n: nat)
    requires n < 16 && (c == LOWER_DIGITS[n] || c == UPPER_DIGITS[n])
    ensures IsHex(c) && HexVal(c) == n
  { }

  lemma {:induction false} SpelledValue(size: string, n: nat)
    requires SizeText(size, n)
    ensures HexText(size) && HexValue(size) == n
    decreases |size|
  {
    hide IsHex, HexVal;
    DigitReads(size[|size| - 1], n % 16);
    if |size| == 1 {
      assert size[..0] == "";
    } else {
      SpelledValue(size[..|size| - 1], n / 16);
      assert forall i :: 0 <= i < |size| - 1 ==> size[..|size| - 1][i] == size[i];
    }
  }

  // A chunk extension starts with a semicolon or the whitespace before one, and stays on its line.
  predicate Extension(ext: string) { (ext == "" || ext[0] in "; \t") && NoCrlf(ext) }

  predicate NoCrlf(s: string) { forall i :: 0 <= i < |s| - 1 ==> !(s[i] == '\r' && s[i + 1] == '\n') }

  predicate ValidChunk(c: Chunk) {
    c.data != "" && |c.data| <= LONG_MAX && SizeText(c.size, |c.data|) && Extension(c.ext)
  }

  predicate ValidChunks(chunks: seq<Chunk>) { forall i :: 0 <= i < |chunks| ==> ValidChunk(chunks[i]) }

  // The chunks, the last chunk of size zero, and whatever follows it.
  function Encoded(chunks: seq<Chunk>, zero: string, ext: string, tail: string): string {
    if chunks == [] then Line(zero, ext) + tail
    else Line(chunks[0].size, chunks[0].ext) + chunks[0].data + CRLF + Encoded(chunks[1..], zero, ext, tail)
  }

  function Content(chunks: seq<Chunk>): string {
    if chunks == [] then "" else chunks[0].data + Content(chunks[1..])
  }

  lemma {:induction false} SkipsTo(s: string, n: nat)
    requires n + 1 < |s| && s[n] == '\r' && s[n + 1] == '\n' && NoCrlf(s[..n + 1])
    ensures Crlf(s) == Some(n)
  {
    assert forall i :: 0 <= i <= n ==> s[..n + 1][i] == s[i];
    assert forall i :: 0 <= i < n ==> !(s[i] == '\r' && s[i + 1] == '\n');
  }

  // Where the line of a size and an extension ends.
  lemma {:induction false} LineEnds(size: string, ext: string, rest: string)
    requires HexText(size) && Extension(ext)
    ensures Crlf(Line(size, ext) + rest) == Some(|size| + |ext|)
    ensures (Line(size, ext) + rest)[..|size| + |ext|] == size + ext
  {
    var s, n := Line(size, ext) + rest, |size| + |ext|;
    assert s[..n] == size + ext;
    forall i | 0 <= i < n ensures !(s[i] == '\r' && s[i + 1] == '\n') {
      if i < |size| { assert s[i] == size[i]; }
      else if i + 1 < n { assert s[i] == ext[i - |size|] && s[i + 1] == ext[i - |size| + 1]; }
    }
    SkipsTo(s, n);
  }

  lemma {:induction false} DigitsOf(size: string, ext: string)
    requires HexText(size) && (ext == "" || !IsHex(ext[0]))
    ensures Digits(size + ext) == |size|
  {
    var s := size + ext;
    assert forall i :: 0 <= i < |size| ==> s[i] == size[i];
    assert ext != "" ==> s[|size|] == ext[0];
  }

  /** strtol reads the size and stops at the extension; no size starts with 0x. */
  lemma {:induction false} SizeReads(size: string, ext: string, n: nat)
    requires SizeText(size, n) && Extension(ext) && n <= LONG_MAX
    ensures Strtol16(size + ext) == Some(n)
  {
    hide SizeText;
    SpelledValue(size, n);
    SizeNotEmpty(size, n);
    var s := size + ext;
    assert IsHex(size[0]) && s[0] == size[0];
    assert Spaces(s) == 0 && s[0..] == s;
    assert |s| > 1 ==> s[1] == (if |size| > 1 then size[1] else ext[0]);
    assert |size| > 1 ==> IsHex(size[1]);
    DigitsOf(size, ext);
    assert s[..|size|] == size;
  }

  lemma {:induction false} SizeNotEmpty(size: string, n: nat)
    requires SizeText(size, n)
    ensures size != ""
  { }

  lemma {:induction false} ChunkReads(c: Chunk, rest: string)
    requires ValidChunk(c)
    ensures var s := Line(c.size, c.ext) + c.data + CRLF + rest;
      var from := |c.size| + |c.ext| + 2;
      && FirstChunk(s) == Some((from, from + |c.data|))
      && s[from..from + |c.data|] == c.data && Chunked.Drop(s, from + |c.data| + 2) == rest
  {
    hide Strtol16, Crlf, HexValue, HexText, SizeText, Extension;
    var s := Line(c.size, c.ext) + c.data + CRLF + rest;
    var more := c.data + CRLF + rest;
    assert s == Line(c.size, c.ext) + more;
    SpelledValue(c.size, |c.data|);
    LineEnds(c.size, c.ext, more);
    SizeReads(c.size, c.ext, |c.data|);
  }

  lemma {:induction false} LastReads(zero: string, ext: string, tail: string)
    requires SizeText(zero, 0) && Extension(ext)
    ensures FirstChunk(Line(zero, ext) + tail) == None
  {
    hide Strtol16, Crlf, HexValue, HexText, SizeText, Extension;
    SpelledValue(zero, 0);
    LineEnds(zero, ext, tail);
    SizeReads(zero, ext, 0);
  }

  lemma {:induction false} NoChunk(s: string)
    requires FirstChunk(s) == None
    ensures Decoded(s) == ""
  { }

  /**
    Decoding the encoding of any list of nonempty chunks yields their
    concatenation, whatever follows the last chunk.
  */
  lemma {:induction false} DecodesEncoding(chunks: seq<Chunk>, zero: string, ext: string, tail: string)
    requires ValidChunks(chunks) && SizeText(zero, 0) && Extension(ext)
    ensures Decoded(Encoded(chunks, zero, ext, tail)) == Content(chunks)
    decreases |chunks|
  {
    hide FirstChunk, ValidChunk, SizeText, Extension, Line, Decoded, Chunked.Drop;
    var s := Encoded(chunks, zero, ext, tail);
    if chunks == [] {
      LastReads(zero, ext, tail);
      NoChunk(s);
    } else {
      var c := chunks[0];
      ChunkReads(c, Encoded(chunks[1..], zero, ext, tail));
      var from := |c.size| + |c.ext| + 2;
      DecodedStep(s, from, from + |c.data|);
      DecodesEncoding(chunks[1..], zero, ext, tail);
    }
  }

  /** A body cut off inside the data of its first chunk yields nothing of it, one cut off after the data all of it. */
  lemma {:induction false} CutChunkDecodes(c: Chunk, n: nat)
    requires ValidChunk(c) && n <= |c.data| + 1
    ensures Decoded(Line(c.size, c.ext) + (c.data + CRLF)[..n]) == if n < |c.data| then "" else c.data
  {
    hide Strtol16, Crlf, HexValue, HexText, SizeText, Extension, Line;
    var more := (c.data + CRLF)[..n];
    var s := Line(c.size, c.ext) + more;
    var from := |c.size| + |c.ext| + 2;
    assert |Line(c.size, c.ext)| == from by { LineLength(c.size, c.ext); }
    SpelledValue(c.size, |c.data|);
    LineEnds(c.size, c.ext, more);
    SizeReads(c.size, c.ext, |c.data|);
    if n < |c.data| {
      NoChunk(s);
    } else {
      assert FirstChunk(s) == Some((from, from + |c.data|));
      DecodedStep(s, from, from + |c.data|);
      assert more[..|c.data|] == c.data && s[from..] == more;
      assert s[from..from + |c.data|] == s[from..][..|c.data|];
      Nothing();
    }
  }

  lemma {:induction false} LineLength(size: string, ext: string)
    ensures |Line(size, ext)| == |size| + |ext| + 2
  { }

  // -------------------------------------------------------- strtol, base 16

  // What strtol may find before the digits: whitespace, a sign, and the prefix 0x.
  predicate Prefixes(blank: string, sign: string, prefix: string) {
    && (forall i :: 0 <= i < |blank| ==> blank[i] in " \t\n\r" || blank[i] as int == 11 || blank[i] as int == 12)
    && sign in ["", "+", "-"] && prefix in ["", "0x", "0X"]
  }

  function Signed(sign: string, n: int): int { if sign == "-" then -n else n }

  /**
    strtol with base 16 (section 7.22.1.4 of the C standard): the number spelled
    after whitespace, a sign and 0x, up to the first other character, cut to what a long can hold.
  */
  lemma {:induction false} StrtolReads(
      blank: string, sign: string, prefix: string, size: string, rest: string, n: nat)
    requires Prefixes(blank, sign, prefix) && SizeText(size, n)
    requires rest == "" || (!IsHex(rest[0]) && rest[0] !in "xX")
    ensures Strtol16(blank + (sign + (prefix + (size + rest)))) == Some(Saturated(Signed(sign, n)))
  {
    hide SizeText, Saturated, HexValue, HexText, Strtol16, Unsigned, Spaces;
    SpelledValue(size, n);
    SizeNotEmpty(size, n);
    var body := prefix + (size + rest);
    BodyStarts(prefix, size, rest);
    SignStarts(sign, body);
    BlankSkipped(blank, sign + body);
    UnsignedReads(prefix, size, rest, n);
    SignReads(blank + (sign + body), sign, body);
  }

  lemma {:induction false} BodyStarts(prefix: string, size: string, rest: string)
    requires prefix in ["", "0x", "0X"] && HexText(size) && size != ""
    ensures var body := prefix + (size + rest); body != "" && IsHex(body[0])
  { }

  lemma {:induction false} SignStarts(sign: string, body: string)
    requires sign in ["", "+", "-"] && body != "" && IsHex(body[0])
    ensures sign + body != "" && !Chunked.IsSpace((sign + body)[0])
  { }

  lemma {:induction false} SignReads(s: string, sign: string, body: string)
    requires sign in ["", "+", "-"] && body != "" && IsHex(body[0])
    requires s[Spaces(s)..] == sign + body && Unsigned(body).Some?
    ensures Strtol16(s) == Some(Saturated(Signed(sign, Unsigned(body).value)))
  {
    hide Unsigned, Spaces, Saturated;
    var t := sign + body;
    if sign == "" {
      assert t == body;
    } else {
      assert t[0] == sign[0] && t[1..] == body;
    }
  }

  lemma {:induction false} BlankSkipped(blank: string, rest: string)
    requires forall i :: 0 <= i < |blank| ==> Chunked.IsSpace(blank[i])
    requires rest != "" && !Chunked.IsSpace(rest[0])
    ensures (blank + rest)[Spaces(blank + rest)..] == rest
    decreases |blank|
  {
    if blank == "" {
      assert blank + rest == rest;
    } else {
      assert (blank + rest)[1..] == blank[1..] + rest;
      BlankSkipped(blank[1..], rest);
    }
  }

  lemma {:induction false} UnsignedReads(prefix: string, size: string, rest: string, n: nat)
    requires prefix in ["", "0x", "0X"] && HexText(size) && size != "" && HexValue(size) == n
    requires rest == "" || (!IsHex(rest[0]) && rest[0] !in "xX")
    ensures Unsigned(prefix + (size + rest)) == Some(n)
  {
    hide HexValue;
    var digits := size + rest;
    DigitsOf(size, rest);
    assert digits[..|size|] == size && digits[0] == size[0];
    assert |digits| > 1 ==> digits[1] == if |size| > 1 then size[1] else rest[0];
    if prefix == "" {
      assert prefix + digits == digits;
    } else {
      assert (prefix + digits)[0] == '0' && (prefix + digits)[1] == prefix[1] && (prefix + digits)[2] == digits[0];
      assert (prefix + digits)[2..] == digits;
    }
  }
}
