/**
  The two JSON readers side by side. On a text that the strict recogniser
  accepts, and on every prefix of one, the tree builder returns; on the whole
  text it stops at the same index and builds the tree that the text denotes.
*/
module JsonAgreement {
  import opened Bytes
  import opened JsonGrammar
  import opened StrictJson
  import opened StrictJsonProof
  import opened Unescape
  import opened LenientJson

  function Min(x: nat, y: nat): nat { if x < y then x else y }

  const OBJECT: Tree := EMPTY.(isObj := true)
  const ARRAY: Tree := EMPTY.(isArr := true)

  // The tree a JSON text denotes: strings unescaped, other scalars verbatim,
  // the last of several members with one key winning. Brackets around nothing
  // but blanks get one empty element, or one empty key.
  function TreeOf(v: Value): Tree
    decreases v, 1
  {
    match v
    case Str(cs) => Leaf(Unescaped(RenderChars(cs)))
    case Num(n) => Leaf(RenderNumber(n))
    case True => Leaf(TRUE)
    case False => Leaf(FALSE)
    case Null => Leaf(NULL)
    case Obj(pad, ms) => if pad != [] then AddMember(OBJECT, [], EMPTY) else AddMembers(OBJECT, ms)
    case Arr(pad, its) => if pad != [] then AddItem(ARRAY, EMPTY) else AddItems(ARRAY, its)
  }

  function AddMembers(v: Tree, ms: seq<Member>): Tree
    decreases ms, 0
  {
    if ms == [] then v
    else AddMembers(AddMember(v, Unescaped(RenderChars(ms[0].key)), TreeOf(ms[0].item.value)), ms[1..])
  }

  function AddItems(v: Tree, its: seq<Item>): Tree
    decreases its, 0
  {
    if its == [] then v else AddItems(AddItem(v, TreeOf(its[0].value)), its[1..])
  }

  lemma {:induction false} AddItemsCount(v: Tree, its: seq<Item>)
    ensures |AddItems(v, its).a| == |v.a| + |its|
    decreases its
  {
    if its != [] { AddItemsCount(AddItem(v, TreeOf(its[0].value)), its[1..]); }
  }

  // A scan of a prefix stops where the scan of the whole text does, or at the
  // end of the prefix.
  lemma {:induction false} SkipTo(c: Class, s: bytes, n: nat, i: nat, j: nat)
    requires i <= j <= |s| && n <= |s|
    requires forall k :: i <= k < j ==> In(c, s[k])
    requires j < |s| ==> !In(c, s[j])
    ensures SkipWhile(c, s[..n], Min(i, n)) == Min(j, n)
  {
    SkipWhileIs(c, s[..n], Min(i, n), Min(j, n));
  }

  lemma {:induction false} BlanksAt(s: bytes, i: nat, w: bytes)
    requires At(s, i, w) && Blank(w)
    ensures forall k :: i <= k < i + |w| ==> IsSpace(s[k])
  {
    forall k | i <= k < i + |w|
      ensures IsSpace(s[k])
    {
      AtIndex(s, i, w, k - i);
      assert In(Space, w[k - i]);
    }
  }

  lemma {:induction false} QuoteAgrees(s: bytes, n: nat, i: nat, cs: seq<StrChar>)
    requires ValidChars(cs) && At(s, i, RenderChars(cs) + [QUOTE]) && i <= n <= |s|
    ensures CloseQuote(s[..n], i, false) == Min(i + |RenderChars(cs)|, n)
    decreases |cs|
  {
    hide At, RenderChar, CloseQuote;
    if cs == [] {
      AtIndex(s, i, [] + [QUOTE], 0);
      AtQuote(s[..n], i);
    } else {
      var c, rest := RenderChar(cs[0]), RenderChars(cs[1..]) + [QUOTE];
      assert RenderChars(cs) + [QUOTE] == c + rest;
      AtConcat(s, i, c, rest);
      assert ValidChar(cs[0]);
      CharAgrees(s, n, i, cs[0]);
      if i + |c| <= n { QuoteAgrees(s, n, i + |c|, cs[1..]); }
    }
  }

  lemma {:induction false} CharAgrees(s: bytes, n: nat, i: nat, c: StrChar)
    requires ValidChar(c) && At(s, i, RenderChar(c)) && i <= n <= |s|
    ensures i + |RenderChar(c)| <= n ==> CloseQuote(s[..n], i, false) == CloseQuote(s[..n], i + |RenderChar(c)|, false)
    ensures n < i + |RenderChar(c)| ==> CloseQuote(s[..n], i, false) == n
  {
    hide CloseQuote, At;
    var b, r := s[..n], RenderChar(c);
    AtEnd(b);
    AtIndex(s, i, r, 0);
    if c.Plain? {
      PlainRun(b, i, Min(i + 1, n));
    } else if i < n {
      EscapedPair(b, i);
      if c.Unicode? && i + 2 <= n {
        AtIndex(s, i, r, 2);
        AtIndex(s, i, r, 3);
        AtIndex(s, i, r, 4);
        AtIndex(s, i, r, 5);
        PlainRun(b, i + 2, Min(i + 6, n));
      }
    }
  }

  lemma {:induction false} AtEnd(b: bytes)
    ensures CloseQuote(b, |b|, false) == |b|
  { }

  lemma {:induction false} AtQuote(b: bytes, i: nat)
    requires i <= |b| && (i < |b| ==> b[i] == QUOTE)
    ensures CloseQuote(b, i, false) == i
  { }

  lemma {:induction false} EscapedPair(b: bytes, i: nat)
    requires i < |b| && b[i] == BACKSLASH
    ensures CloseQuote(b, i, false) == if i + 1 < |b| then CloseQuote(b, i + 2, false) else |b|
  { }

  lemma {:induction false} PlainRun(b: bytes, i: nat, j: nat)
    requires i <= j <= |b| && forall k :: i <= k < j ==> b[k] != QUOTE && b[k] != BACKSLASH
    ensures CloseQuote(b, i, false) == CloseQuote(b, j, false)
    decreases j - i
  {
    if i < j { PlainRun(b, i + 1, j); }
  }

  // `b` has been parsed as far as the text or the prefix goes: up to `j`, and
  // to the denoted tree when the prefix reaches that far.
  predicate Agrees(r: Option<Parsed>, n: nat, j: nat, t: Tree) {
    r.Some? && r.value.end == Min(j, n) && (j <= n ==> r.value.tree == t)
  }

  lemma {:induction false} ParseSkipsBlanks(b: bytes, i: nat)
    requires i <= |b|
    ensures Parse(b, i) == Parse(b, SkipWhile(Space, b, i))
  {
    var k := SkipWhile(Space, b, i);
    SkipWhileIs(Space, b, k, k);
    hide SkipWhile, ObjectLoop, ArrayLoop, ParseScalar, ParseQuoted;
  }

  lemma {:induction false} ParseNothing(b: bytes)
    ensures Parse(b, |b|) == Some(Parsed(EMPTY, |b|))
  {
    hide ObjectLoop, ArrayLoop, ParseScalar, ParseQuoted;
  }

  lemma {:induction false} StringAgrees(s: bytes, n: nat, i: nat, cs: seq<StrChar>)
    requires ValidChars(cs) && At(s, i, RenderString(cs)) && i <= n <= |s|
    ensures Agrees(Parse(s[..n], i), n, i + |RenderString(cs)|, Leaf(Unescaped(RenderChars(cs))))
  {
    hide At, CloseQuote, Unescaped, ObjectLoop, ArrayLoop, ParseScalar;
    var b := s[..n];
    AtConcat(s, i, [QUOTE], RenderChars(cs) + [QUOTE]);
    AtConcat(s, i + 1, RenderChars(cs), [QUOTE]);
    AtIndex(s, i, [QUOTE], 0);
    if i == n {
      ParseNothing(b);
    } else {
      assert b[i] == QUOTE;
      SkipWhileIs(Space, b, i, i);
      QuoteAgrees(s, n, i + 1, cs);
      var e := i + 1 + |RenderChars(cs)|;
      if e <= n {
        AtSame(s, i + 1, RenderChars(cs));
        PrefixSlice(s, n, i + 1, e);
      }
    }
  }

  lemma {:induction false} PrefixSlice(s: bytes, n: nat, i: nat, j: nat)
    requires i <= j <= n <= |s|
    ensures s[..n][i..j] == s[i..j]
  { }

  lemma {:induction false} AtSame(s: bytes, i: nat, t: bytes)
    requires At(s, i, t)
    ensures s[i..i + |t|] == t
  { }

  // A token without quotes, brackets, commas or blanks.
  lemma {:induction false} ScalarAgrees(s: bytes, n: nat, i: nat, t: bytes)
    requires At(s, i, t) && All(Scalar, t) && Follow(s, i + |t|) && i <= n <= |s|
    requires t != [] && t[0] != QUOTE && t[0] != LBRACE && t[0] != LBRACKET
    ensures Agrees(Parse(s[..n], i), n, i + |t|, Leaf(t))
  {
    hide ObjectLoop, ArrayLoop, ParseQuoted;
    var b := s[..n];
    var j := i + |t|;
    if i == n {
      ParseNothing(b);
    } else {
      AtIndex(s, i, t, 0);
      ScalarIsNoSpace(b[i]);
      SkipWhileIs(Space, b, i, i);
      forall k | i <= k < j
        ensures In(Scalar, s[k])
      {
        AtIndex(s, i, t, k - i);
      }
      SkipTo(Scalar, s, n, i, j);
      if j <= n {
        AtSame(s, i, t);
        PrefixSlice(s, n, i, j);
      }
    }
  }

  lemma {:induction false} ScalarIsNoSpace(x: byte)
    requires In(Scalar, x)
    ensures !In(Space, x)
  { }

  lemma {:induction false} LiteralsAreScalars()
    ensures All(Scalar, TRUE) && All(Scalar, FALSE) && All(Scalar, NULL)
  { }

  predicate NumberByte(x: byte) { IsDigit(x) || x == MINUS || x == PLUS || x == DOT || x == 0x65 || x == 0x45 }

  lemma {:induction false} NumberByteIsScalar(x: byte)
    requires NumberByte(x)
    ensures In(Scalar, x) && x != QUOTE && x != LBRACE && x != LBRACKET
  { }

  lemma {:induction false} NumberBytes(n: Number, k: nat)
    requires ValidNumber(n) && k < |RenderNumber(n)|
    ensures NumberByte(RenderNumber(n)[k])
  {
    hide NumberByte;
    var sign := if n.negative then [MINUS] else [];
    var f, x := RenderFraction(n.fraction), RenderExponent(n.exponent);
    ExponentBytes(n.exponent);
    FractionBytes(n.fraction);
    DigitBytes(n.whole);
    SignByte();
    assert RenderNumber(n) == sign + (n.whole + (f + x));
    assert k < |sign| + |n.whole| + |f| + |x|;
  }

  lemma {:induction false} SignByte()
    ensures NumberByte(MINUS) && NumberByte(PLUS) && NumberByte(DOT) && NumberByte(0x65) && NumberByte(0x45)
  { }

  lemma {:induction false} DigitBytes(ds: bytes)
    requires All(Digit, ds)
    ensures forall k :: 0 <= k < |ds| ==> NumberByte(ds[k])
  {
    forall k | 0 <= k < |ds|
      ensures NumberByte(ds[k])
    {
      assert In(Digit, ds[k]);
    }
  }

  lemma {:induction false} FractionBytes(f: Option<bytes>)
    requires f.Some? ==> Digits(f.value)
    ensures forall k :: 0 <= k < |RenderFraction(f)| ==> NumberByte(RenderFraction(f)[k])
  {
    SignByte();
    if f.Some? { DigitBytes(f.value); }
    hide NumberByte;
  }

  lemma {:induction false} ExponentBytes(x: Option<Exponent>)
    requires x.Some? ==> ValidExponent(x.value)
    ensures forall k :: 0 <= k < |RenderExponent(x)| ==> NumberByte(RenderExponent(x)[k])
  {
    SignByte();
    if x.Some? { DigitBytes(x.value.digits); }
    hide NumberByte;
  }

  lemma {:induction false} NumberAgrees(s: bytes, n: nat, i: nat, x: Number)
    requires ValidNumber(x) && At(s, i, RenderNumber(x)) && Follow(s, i + |RenderNumber(x)|) && i <= n <= |s|
    ensures Agrees(Parse(s[..n], i), n, i + |RenderNumber(x)|, Leaf(RenderNumber(x)))
  {
    var t := RenderNumber(x);
    assert t != [];
    hide RenderNumber, Parse, At, Follow, ValidNumber;
    forall k | 0 <= k < |t|
      ensures In(Scalar, t[k]) && t[k] != QUOTE && t[k] != LBRACE && t[k] != LBRACKET
    {
      NumberBytes(x, k);
      NumberByteIsScalar(t[k]);
    }
    ScalarAgrees(s, n, i, t);
  }

  lemma {:induction false} ValueAgrees(s: bytes, n: nat, i: nat, v: Value)
    requires Valid(v) && At(s, i, Render(v)) && Follow(s, i + |Render(v)|) && i <= n <= |s|
    ensures Agrees(Parse(s[..n], i), n, i + |Render(v)|, TreeOf(v))
    decreases v, 2
  {
    hide At, Follow, Agrees, Parse, RenderString, RenderNumber, Unescaped;
    LiteralsAreScalars();
    match v
    case Str(cs) => StringAgrees(s, n, i, cs);
    case Num(x) => NumberAgrees(s, n, i, x);
    case True => ScalarAgrees(s, n, i, TRUE);
    case False => ScalarAgrees(s, n, i, FALSE);
    case Null => ScalarAgrees(s, n, i, NULL);
    case Obj(pad, ms) => ObjectAgrees(s, n, i, pad, ms);
    case Arr(pad, its) => ArrayAgrees(s, n, i, pad, its);
  }

  // Where the parts of an item lie.
  lemma {:induction false} ItemShape(s: bytes, i: nat, it: Item)
    requires ValidItem(it) && At(s, i, RenderItem(it)) && Follow(s, i + |RenderItem(it)|)
    ensures var v := i + |it.before|; var e := v + |Render(it.value)|;
      && e <= i + |RenderItem(it)| && v < e
      && (forall k :: i <= k < v ==> IsSpace(s[k]))
      && Starts(s[v])
      && At(s, v, Render(it.value)) && Follow(s, e)
      && (forall k :: e <= k < i + |RenderItem(it)| ==> IsSpace(s[k]))
  {
    hide At, Render, ValueEnd;
    var v := i + |it.before|;
    var e := v + |Render(it.value)|;
    AtConcat(s, i, it.before, Render(it.value) + it.after);
    AtConcat(s, v, Render(it.value), it.after);
    BlanksAt(s, i, it.before);
    BlanksAt(s, e, it.after);
    ValueComplete(s, v, it.value);
  }

  // An item parsed from somewhere inside the blanks before it.
  lemma {:induction false} ItemAgrees(s: bytes, n: nat, i0: nat, i: nat, it: Item)
    requires ValidItem(it) && At(s, i0, RenderItem(it)) && Follow(s, i0 + |RenderItem(it)|)
    requires i0 <= i <= i0 + |it.before| && i <= n <= |s|
    ensures Agrees(Parse(s[..n], i), n, i0 + |it.before| + |Render(it.value)|, TreeOf(it.value))
    decreases it, 3
  {
    hide At, Agrees, Parse, Render, RenderItem, TreeOf, SkipWhile, Follow;
    var v := i0 + |it.before|;
    ItemShape(s, i0, it);
    SkipTo(Space, s, n, i, v);
    ParseSkipsBlanks(s[..n], i);
    if v <= n {
      ValueAgrees(s, n, v, it.value);
    } else {
      ParseNothing(s[..n]);
      CutShort(n, v + |Render(it.value)|, TreeOf(it.value));
    }
  }

  lemma {:induction false} CutShort(n: nat, j: nat, t: Tree)
    requires n < j
    ensures Agrees(Some(Parsed(EMPTY, n)), n, j, t)
  { }

  // Where the loop of the tree builder finds itself after the first item.
  function NextHead(i: nat, its: seq<Item>): nat
    requires its != []
  {
    var e := i + |RenderItem(its[0])|;
    if |its| == 1 then e else e + 1 + |its[1].before|
  }

  // The first of several items, and what follows it.
  lemma {:induction false} FirstItem(s: bytes, i: nat, its: seq<Item>)
    requires its != [] && ValidItem(its[0]) && At(s, i, RenderItems(its) + [RBRACKET])
    ensures var e := i + |RenderItem(its[0])|;
      && At(s, i, RenderItem(its[0])) && e < |s| && Follow(s, e)
      && (|its| == 1 ==> s[e] == RBRACKET && e == i + |RenderItems(its)|)
      && (|its| > 1 ==> s[e] == COMMA && At(s, e + 1, RenderItems(its[1..]) + [RBRACKET]))
      && (|its| > 1 ==> e + 1 + |RenderItems(its[1..])| == i + |RenderItems(its)|)
  {
    hide At, RenderItem;
    var first := RenderItem(its[0]);
    var e := i + |first|;
    if |its| == 1 {
      AtConcat(s, i, first, [RBRACKET]);
      AtIndex(s, e, [RBRACKET], 0);
    } else {
      var rest := RenderItems(its[1..]) + [RBRACKET];
      assert RenderItems(its) + [RBRACKET] == first + ([COMMA] + rest);
      AtConcat(s, i, first, [COMMA] + rest);
      AtConcat(s, e, [COMMA], rest);
      AtIndex(s, e, [COMMA], 0);
    }
  }

  // Having read the value of the first item, the loop skips to NextHead.
  lemma {:induction false} AfterItem(s: bytes, n: nat, i: nat, its: seq<Item>)
    requires its != [] && (forall it :: it in its ==> ValidItem(it)) && n <= |s|
    requires At(s, i, RenderItems(its) + [RBRACKET])
    ensures var value := i + |its[0].before| + |Render(its[0].value)|; var next := NextHead(i, its);
      && SkipWhile(SpaceOrComma, s[..n], Min(value, n)) == Min(next, n)
      && value <= next <= i + |RenderItems(its)| < |s|
      && (|its| == 1 ==> s[next] == RBRACKET)
  {
    hide At, Render, RenderItem, RenderItems, SkipWhile, ValidItem, Follow;
    var e := i + |RenderItem(its[0])|;
    var value := i + |its[0].before| + |Render(its[0].value)|;
    var next := NextHead(i, its);
    FirstItem(s, i, its);
    ItemShape(s, i, its[0]);
    if |its| > 1 {
      FirstItem(s, e + 1, its[1..]);
      ItemShape(s, e + 1, its[1]);
      ItemsLength(its[1..]);
    }
    assert forall k :: value <= k < next ==> IsSpace(s[k]) || s[k] == COMMA;
    SkipTo(SpaceOrComma, s, n, value, next);
  }

  lemma {:induction false} ItemsLength(its: seq<Item>)
    requires its != []
    ensures |its[0].before| + |Render(its[0].value)| <= |RenderItems(its)|
  {
    hide Render;
  }

  lemma {:induction false} HeadOfItem(s: bytes, i0: nat, i: nat, it: Item)
    requires ValidItem(it) && At(s, i0, RenderItem(it)) && Follow(s, i0 + |RenderItem(it)|)
    requires i0 <= i <= i0 + |it.before|
    ensures i < |s| && s[i] != RBRACKET && s[i] != RBRACE
  {
    ItemShape(s, i0, it);
    hide At, RenderItem, Render, Follow;
  }

  lemma {:induction false} ItemsAgree(s: bytes, n: nat, i0: nat, i: nat, its: seq<Item>, v: Tree)
    requires its != [] && forall it :: it in its ==> ValidItem(it)
    requires At(s, i0, RenderItems(its) + [RBRACKET])
    requires i0 <= i <= i0 + |its[0].before| && i <= n <= |s|
    ensures Agrees(ArrayLoop(s[..n], i, v), n, i0 + |RenderItems(its)| + 1, AddItems(v, its))
    decreases its, 0
  {
    hide At, Parse, Render, RenderItem, RenderItems, TreeOf, SkipWhile, AddItem, Follow, ValidItem, NextHead, ArrayLoop;
    var b, it := s[..n], its[0];
    var next := NextHead(i0, its);
    AfterItem(s, n, i0, its);
    FirstItem(s, i0, its);
    if i == n {
      ArrayStops(b, n, v);
    } else {
      HeadOfItem(s, i0, i, it);
      ItemAgrees(s, n, i0, i, it);
      ItemShape(s, i0, it);
      var child := Parse(b, i).value;
      ArrayTurn(b, i, v, child, Min(next, n));
      var w := AddItem(v, child.tree);
      if next >= n {
        ArrayStops(b, n, w);
      } else if |its| == 1 {
        ArrayStops(b, next, w);
        LastItem(v, its);
      } else {
        NextHeadIs(i0, its);
        ItemsAgree(s, n, i0 + |RenderItem(it)| + 1, next, its[1..], w);
      }
    }
  }

  lemma {:induction false} LastItem(v: Tree, its: seq<Item>)
    requires |its| == 1
    ensures AddItems(v, its) == AddItem(v, TreeOf(its[0].value))
  { }

  lemma {:induction false} NextHeadIs(i: nat, its: seq<Item>)
    requires |its| > 1
    ensures NextHead(i, its) == i + |RenderItem(its[0])| + 1 + |its[1].before|
  { }

  // ------------------------------------------------- brackets around blanks

  lemma {:induction false} ParseAtCloser(b: bytes, p: nat)
    requires p < |b| && (b[p] == RBRACKET || b[p] == RBRACE)
    ensures Parse(b, p) == Some(Parsed(EMPTY, p))
  {
    SkipWhileIs(Space, b, p, p);
    SkipWhileIs(Scalar, b, p, p);
    assert b[p..p] == [];
    hide SkipWhile, ObjectLoop, ArrayLoop, ParseQuoted;
  }

  lemma {:induction false} SkipNone(c: Class, b: bytes, p: nat)
    requires p <= |b| && (p < |b| ==> b[p] == RBRACKET || b[p] == RBRACE) && !c.Scalar?
    ensures SkipWhile(c, b, p) == p
  {
    SkipWhileIs(c, b, p, p);
  }

  lemma {:induction false} BlankOnly(s: bytes, n: nat, i: nat, pad: bytes, closer: byte)
    requires Blank(pad) && At(s, i, pad + [closer]) && i <= n <= |s|
    requires closer == RBRACKET || closer == RBRACE
    ensures var p := i + |pad|;
      && p < |s| && s[p] == closer
      && (forall k :: i <= k < p ==> IsSpace(s[k]))
      && Parse(s[..n], i) == Parse(s[..n], Min(p, n)) == Some(Parsed(EMPTY, Min(p, n)))
  {
    hide At, Parse, SkipWhile;
    var b, p := s[..n], i + |pad|;
    AtConcat(s, i, pad, [closer]);
    AtIndex(s, p, [closer], 0);
    BlanksAt(s, i, pad);
    SkipTo(Space, s, n, i, p);
    ParseSkipsBlanks(b, i);
    if p < n { ParseAtCloser(b, p); } else { ParseNothing(b); }
  }

  lemma {:induction false} OpenArray(s: bytes, n: nat, i: nat)
    requires i < n <= |s| && s[i] == LBRACKET
    ensures Parse(s[..n], i) == ArrayLoop(s[..n], i + 1, ARRAY)
  {
    SkipWhileIs(Space, s[..n], i, i);
    hide SkipWhile, ObjectLoop, ArrayLoop, ParseScalar, ParseQuoted;
  }

  lemma {:induction false} OpenObject(s: bytes, n: nat, i: nat)
    requires i < n <= |s| && s[i] == LBRACE
    ensures Parse(s[..n], i) == ObjectLoop(s[..n], i + 1, OBJECT)
  {
    SkipWhileIs(Space, s[..n], i, i);
    hide SkipWhile, ObjectLoop, ArrayLoop, ParseScalar, ParseQuoted;
  }

  lemma {:induction false} EmptyArrayAgrees(s: bytes, n: nat, i: nat, pad: bytes)
    requires Blank(pad) && At(s, i, pad + [RBRACKET]) && i <= n <= |s|
    ensures Agrees(ArrayLoop(s[..n], i, ARRAY), n, i + |pad| + 1, if pad != [] then AddItem(ARRAY, EMPTY) else ARRAY)
  {
    hide At, Parse, SkipWhile, AddItem, ArrayLoop;
    var b, p := s[..n], i + |pad|;
    BlankOnly(s, n, i, pad, RBRACKET);
    var w := if pad == [] || i == n then ARRAY else AddItem(ARRAY, EMPTY);
    if pad != [] && i < n {
      SpaceIsNoCloser(s[i]);
      SkipNone(SpaceOrComma, b, Min(p, n));
      ArrayTurn(b, i, ARRAY, Parsed(EMPTY, Min(p, n)), Min(p, n));
    }
    ArrayStops(b, Min(p, n), w);
  }

  lemma {:induction false} SpaceIsNoCloser(x: byte)
    requires IsSpace(x)
    ensures x != RBRACKET && x != RBRACE
  { }

  lemma {:induction false} ArrayAgrees(s: bytes, n: nat, i: nat, pad: bytes, its: seq<Item>)
    requires Valid(Arr(pad, its)) && At(s, i, Render(Arr(pad, its))) && i <= n <= |s|
    ensures Agrees(Parse(s[..n], i), n, i + |Render(Arr(pad, its))|, TreeOf(Arr(pad, its)))
    decreases its, 1
  {
    hide At, Parse, RenderItems, AddItems, AddItem, ArrayLoop, ValidItem;
    var inner := if its == [] then pad else RenderItems(its);
    AtConcat(s, i, [LBRACKET], inner + [RBRACKET]);
    AtIndex(s, i, [LBRACKET], 0);
    if i == n {
      ParseNothing(s[..n]);
    } else {
      OpenArray(s, n, i);
      if its == [] {
        EmptyArrayAgrees(s, n, i + 1, pad);
        AddNothing(ARRAY);
      } else {
        ItemsAgree(s, n, i + 1, i + 1, its, ARRAY);
      }
    }
  }

  lemma {:induction false} AddNothing(v: Tree)
    ensures AddItems(v, []) == v && AddMembers(v, []) == v
  { }

  // ---------------------------------------------------------------- objects

  lemma {:induction false} EmptyObjectAgrees(s: bytes, n: nat, i: nat, pad: bytes)
    requires Blank(pad) && At(s, i, pad + [RBRACE]) && i <= n <= |s|
    ensures Agrees(
      ObjectLoop(s[..n], i, OBJECT), n, i + |pad| + 1, if pad != [] then AddMember(OBJECT, [], EMPTY) else OBJECT)
  {
    hide At, Parse, SkipWhile, AddMember, ObjectLoop;
    var b, p := s[..n], i + |pad|;
    BlankOnly(s, n, i, pad, RBRACE);
    var w := if pad == [] || i == n then OBJECT else AddMember(OBJECT, [], EMPTY);
    if pad != [] && i < n {
      SpaceIsNoCloser(s[i]);
      SkipNone(SpaceOrColon, b, Min(p, n));
      SkipNone(SpaceOrComma, b, Min(p, n));
      ObjectTurn(b, i, OBJECT, Parsed(EMPTY, Min(p, n)), Parsed(EMPTY, Min(p, n)), Min(p, n));
    }
    ObjectStops(b, Min(p, n), w);
  }

  function KeyAt(i: nat, m: Member): nat { i + |m.beforeKey| }

  function KeyEnd(i: nat, m: Member): nat { KeyAt(i, m) + |RenderString(m.key)| }

  function ItemAt(i: nat, m: Member): nat { KeyEnd(i, m) + |m.beforeColon| + 1 }

  function ChildAt(i: nat, m: Member): nat { ItemAt(i, m) + |m.item.before| }

  function ChildEnd(i: nat, m: Member): nat { ChildAt(i, m) + |Render(m.item.value)| }

  // Where the parts of a member lie.
  lemma {:induction false} MemberShape(s: bytes, i: nat, m: Member)
    requires ValidMember(m) && At(s, i, RenderMember(m)) && Follow(s, i + |RenderMember(m)|)
    ensures KeyAt(i, m) < KeyEnd(i, m) < ItemAt(i, m) <= ChildAt(i, m) < ChildEnd(i, m) <= i + |RenderMember(m)| <= |s|
    ensures (forall k :: i <= k < KeyAt(i, m) ==> IsSpace(s[k])) && At(s, KeyAt(i, m), RenderString(m.key))
      && s[KeyAt(i, m)] == QUOTE
    ensures forall k :: KeyEnd(i, m) <= k < ChildAt(i, m) ==> IsSpace(s[k]) || s[k] == COLON
    ensures At(s, ItemAt(i, m), RenderItem(m.item)) && ItemAt(i, m) + |RenderItem(m.item)| == i + |RenderMember(m)|
    ensures Starts(s[ChildAt(i, m)])
    ensures At(s, ChildAt(i, m), Render(m.item.value)) && Follow(s, ChildEnd(i, m))
    ensures forall k :: ChildEnd(i, m) <= k < i + |RenderMember(m)| ==> IsSpace(s[k])
  {
    hide At, Follow, Render, RenderItem, RenderString, ValidItem;
    var item := [COLON] + RenderItem(m.item);
    var k, q := KeyAt(i, m), KeyEnd(i, m);
    var c := q + |m.beforeColon|;
    AtConcat(s, i, m.beforeKey, RenderString(m.key) + (m.beforeColon + item));
    AtConcat(s, k, RenderString(m.key), m.beforeColon + item);
    AtConcat(s, q, m.beforeColon, item);
    AtConcat(s, c, [COLON], RenderItem(m.item));
    AtIndex(s, c, [COLON], 0);
    QuoteStarts(s, k, m.key);
    BlanksAt(s, i, m.beforeKey);
    BlanksAt(s, q, m.beforeColon);
    ItemShape(s, c + 1, m.item);
  }

  lemma {:induction false} QuoteStarts(s: bytes, i: nat, cs: seq<StrChar>)
    requires At(s, i, RenderString(cs))
    ensures |RenderString(cs)| > 0 && i < |s| && s[i] == QUOTE
  {
    AtIndex(s, i, RenderString(cs), 0);
  }

  lemma {:induction false} MemberHead(s: bytes, i0: nat, i: nat, m: Member)
    requires ValidMember(m) && At(s, i0, RenderMember(m)) && Follow(s, i0 + |RenderMember(m)|)
    requires i0 <= i <= KeyAt(i0, m)
    ensures KeyAt(i0, m) < |s| && s[KeyAt(i0, m)] == QUOTE && s[i] != RBRACE
  {
    hide At, RenderMember, Follow, ChildEnd, ChildAt, ItemAt;
    MemberShape(s, i0, m);
  }

  lemma {:induction false} MemberBlanks(s: bytes, i: nat, m: Member)
    requires ValidMember(m) && At(s, i, RenderMember(m)) && Follow(s, i + |RenderMember(m)|)
    ensures KeyAt(i, m) < |s| && s[KeyAt(i, m)] == QUOTE
    ensures forall k :: i <= k < KeyAt(i, m) ==> IsSpace(s[k])
  {
    hide At, RenderMember, Follow, ChildEnd, ChildAt, ItemAt;
    MemberShape(s, i, m);
  }

  lemma {:induction false} MemberTail(s: bytes, i: nat, m: Member)
    requires ValidMember(m) && At(s, i, RenderMember(m)) && Follow(s, i + |RenderMember(m)|)
    ensures ChildEnd(i, m) <= i + |RenderMember(m)| <= |s|
    ensures forall k :: ChildEnd(i, m) <= k < i + |RenderMember(m)| ==> IsSpace(s[k])
  {
    hide At, RenderMember, Follow, ChildEnd, ChildAt, ItemAt, KeyAt, KeyEnd;
    MemberShape(s, i, m);
  }

  // The key of a member, parsed from somewhere inside the blanks before it.
  lemma {:induction false} KeyAgrees(s: bytes, n: nat, i0: nat, i: nat, m: Member)
    requires ValidMember(m) && At(s, i0, RenderMember(m)) && Follow(s, i0 + |RenderMember(m)|)
    requires i0 <= i <= KeyAt(i0, m) && i <= n <= |s|
    ensures Agrees(Parse(s[..n], i), n, KeyEnd(i0, m), Leaf(Unescaped(RenderChars(m.key))))
    ensures SkipWhile(SpaceOrColon, s[..n], Min(KeyEnd(i0, m), n)) == Min(ChildAt(i0, m), n)
  {
    hide At, Agrees, Parse, RenderMember, RenderString, SkipWhile, Follow, ItemAt, Unescaped;
    MemberShape(s, i0, m);
    SkipTo(Space, s, n, i, KeyAt(i0, m));
    ParseSkipsBlanks(s[..n], i);
    if KeyAt(i0, m) <= n {
      StringAgrees(s, n, KeyAt(i0, m), m.key);
    } else {
      ParseNothing(s[..n]);
      CutShort(n, KeyEnd(i0, m), Leaf(Unescaped(RenderChars(m.key))));
    }
    SkipTo(SpaceOrColon, s, n, KeyEnd(i0, m), ChildAt(i0, m));
  }

  // The value of a member, parsed where the loop parses it.
  lemma {:induction false} ChildAgrees(s: bytes, n: nat, i: nat, m: Member)
    requires ValidMember(m) && At(s, i, RenderMember(m)) && Follow(s, i + |RenderMember(m)|) && n <= |s|
    ensures Agrees(Parse(s[..n], Min(ChildAt(i, m), n)), n, ChildEnd(i, m), TreeOf(m.item.value))
    decreases m, 3
  {
    hide At, Agrees, Parse, RenderMember, Follow, ChildAt, TreeOf;
    MemberShape(s, i, m);
    if ChildAt(i, m) <= n {
      ValueAgrees(s, n, ChildAt(i, m), m.item.value);
    } else {
      ParseNothing(s[..n]);
      CutShort(n, ChildEnd(i, m), TreeOf(m.item.value));
    }
  }

  lemma {:induction false} FirstMember(s: bytes, i: nat, ms: seq<Member>)
    requires ms != [] && ValidMember(ms[0]) && At(s, i, RenderMembers(ms) + [RBRACE])
    ensures var e := i + |RenderMember(ms[0])|;
      && At(s, i, RenderMember(ms[0])) && e < |s| && Follow(s, e)
      && (|ms| == 1 ==> s[e] == RBRACE && e == i + |RenderMembers(ms)|)
      && (|ms| > 1 ==> s[e] == COMMA && At(s, e + 1, RenderMembers(ms[1..]) + [RBRACE]))
      && (|ms| > 1 ==> e + 1 + |RenderMembers(ms[1..])| == i + |RenderMembers(ms)|)
  {
    hide At, RenderMember;
    var first := RenderMember(ms[0]);
    var e := i + |first|;
    if |ms| == 1 {
      AtConcat(s, i, first, [RBRACE]);
      AtIndex(s, e, [RBRACE], 0);
    } else {
      var rest := RenderMembers(ms[1..]) + [RBRACE];
      assert RenderMembers(ms) + [RBRACE] == first + ([COMMA] + rest);
      AtConcat(s, i, first, [COMMA] + rest);
      AtConcat(s, e, [COMMA], rest);
      AtIndex(s, e, [COMMA], 0);
    }
  }

  function NextMember(i: nat, ms: seq<Member>): nat
    requires ms != []
  {
    var e := i + |RenderMember(ms[0])|;
    if |ms| == 1 then e else e + 1 + |ms[1].beforeKey|
  }

  lemma {:induction false} AfterMember(s: bytes, n: nat, i: nat, ms: seq<Member>)
    requires ms != [] && (forall m :: m in ms ==> ValidMember(m)) && n <= |s|
    requires At(s, i, RenderMembers(ms) + [RBRACE])
    ensures var next := NextMember(i, ms);
      && SkipWhile(SpaceOrComma, s[..n], Min(ChildEnd(i, ms[0]), n)) == Min(next, n)
      && ChildEnd(i, ms[0]) <= next <= i + |RenderMembers(ms)| < |s|
      && (|ms| == 1 ==> s[next] == RBRACE)
  {
    hide At, RenderMember, RenderMembers, SkipWhile, ValidMember, Follow, ChildEnd, ChildAt, ItemAt, KeyEnd;
    var e := i + |RenderMember(ms[0])|;
    var next := NextMember(i, ms);
    FirstMember(s, i, ms);
    MemberTail(s, i, ms[0]);
    if |ms| > 1 {
      FirstMember(s, e + 1, ms[1..]);
      MemberBlanks(s, e + 1, ms[1]);
      MembersLength(ms[1..]);
    }
    SkipTo(SpaceOrComma, s, n, ChildEnd(i, ms[0]), next);
  }

  lemma {:induction false} MembersLength(ms: seq<Member>)
    requires ms != []
    ensures |ms[0].beforeKey| <= |RenderMembers(ms)|
  {
    hide RenderString, RenderItem;
  }

  lemma {:induction false} NextMemberIs(i: nat, ms: seq<Member>)
    requires |ms| > 1
    ensures NextMember(i, ms) == KeyAt(i + |RenderMember(ms[0])| + 1, ms[1])
  { }

  lemma {:induction false} AddFirst(v: Tree, ms: seq<Member>)
    requires ms != []
    ensures AddMembers(v, ms)
      == AddMembers(AddMember(v, Unescaped(RenderChars(ms[0].key)), TreeOf(ms[0].item.value)), ms[1..])
  { }

  lemma {:induction false} LastMember(i: nat, ms: seq<Member>)
    requires |ms| == 1
    ensures NextMember(i, ms) == i + |RenderMembers(ms)|
  { }

  lemma {:induction false} MemberOrder(s: bytes, i: nat, m: Member)
    requires ValidMember(m) && At(s, i, RenderMember(m)) && Follow(s, i + |RenderMember(m)|)
    ensures KeyAt(i, m) < KeyEnd(i, m) < ChildAt(i, m) < ChildEnd(i, m) <= |s|
  {
    hide At, RenderMember, Follow, KeyAt, KeyEnd, ItemAt, ChildAt, ChildEnd;
    MemberShape(s, i, m);
  }

  lemma {:induction false} MembersAgree(s: bytes, n: nat, i0: nat, i: nat, ms: seq<Member>, v: Tree)
    requires ms != [] && forall m :: m in ms ==> ValidMember(m)
    requires At(s, i0, RenderMembers(ms) + [RBRACE])
    requires i0 <= i <= KeyAt(i0, ms[0]) && i <= n <= |s|
    ensures Agrees(ObjectLoop(s[..n], i, v), n, i0 + |RenderMembers(ms)| + 1, AddMembers(v, ms))
    decreases ms, 0
  {
    hide At, Parse, RenderMember, RenderMembers, TreeOf, SkipWhile, AddMember, AddMembers;
    hide Follow, ValidMember, NextMember, ObjectLoop, Unescaped, ItemAt, ChildEnd, KeyEnd, ChildAt;
    var b, m := s[..n], ms[0];
    var next := NextMember(i0, ms);
    AfterMember(s, n, i0, ms);
    FirstMember(s, i0, ms);
    MemberOrder(s, i0, m);
    if i == n {
      ObjectStops(b, n, v);
    } else {
      MemberHead(s, i0, i, m);
      KeyAgrees(s, n, i0, i, m);
      ChildAgrees(s, n, i0, m);
      var key := Parse(b, i).value;
      var child := Parse(b, Min(ChildAt(i0, m), n)).value;
      ObjectTurn(b, i, v, key, child, Min(next, n));
      var w := AddMember(v, key.tree.s, child.tree);
      AddFirst(v, ms);
      if next >= n {
        ObjectStops(b, n, w);
      } else if |ms| == 1 {
        LastMember(i0, ms);
        ObjectStops(b, next, w);
        AddNothing(w);
      } else {
        NextMemberIs(i0, ms);
        MembersAgree(s, n, i0 + |RenderMember(m)| + 1, next, ms[1..], w);
      }
    }
  }

  lemma {:induction false} ObjectAgrees(s: bytes, n: nat, i: nat, pad: bytes, ms: seq<Member>)
    requires Valid(Obj(pad, ms)) && At(s, i, Render(Obj(pad, ms))) && i <= n <= |s|
    ensures Agrees(Parse(s[..n], i), n, i + |Render(Obj(pad, ms))|, TreeOf(Obj(pad, ms)))
    decreases ms, 1
  {
    hide At, Parse, RenderMembers, AddMembers, AddMember, ObjectLoop, ValidMember;
    var inner := if ms == [] then pad else RenderMembers(ms);
    AtConcat(s, i, [LBRACE], inner + [RBRACE]);
    AtIndex(s, i, [LBRACE], 0);
    if i == n {
      ParseNothing(s[..n]);
    } else {
      OpenObject(s, n, i);
      if ms == [] {
        EmptyObjectAgrees(s, n, i + 1, pad);
        AddNothing(OBJECT);
      } else {
        MembersAgree(s, n, i + 1, i + 1, ms, OBJECT);
      }
    }
  }

  // ------------------------------------------------------------ main results

  /** The tree builder on a JSON text: it stops after the value, and builds the tree the text denotes. */
  lemma {:induction false} DocumentTree(before: bytes, v: Value, after: bytes)
    requires Blank(before) && Valid(v) && Blank(after)
    ensures Parse(before + (Render(v) + after), 0) == Some(Parsed(TreeOf(v), |before| + |Render(v)|))
  {
    hide Parse, Render, TreeOf, Valid, Blank;
    var it := Item(before, v, after);
    ItemDocument(before + (Render(v) + after), it);
  }

  lemma {:induction false} ItemDocument(s: bytes, it: Item)
    requires ValidItem(it) && s == RenderItem(it)
    ensures Parse(s, 0) == Some(Parsed(TreeOf(it.value), |it.before| + |Render(it.value)|))
  {
    hide At, Parse, Render, TreeOf, Follow, ValidItem;
    FollowEnd(s);
    WholePrefix(s);
    ItemAgrees(s, |s|, 0, 0, it);
  }

  lemma {:induction false} WholePrefix(s: bytes)
    ensures s[..|s|] == s
  { }

  lemma {:induction false} FollowEnd(s: bytes)
    ensures Follow(s, |s|) && At(s, 0, s)
  { }

  /** On every prefix of an accepted value the tree builder returns, at the value's end or the prefix's. */
  lemma {:induction false} PrefixTerminates(s: bytes, i: nat, n: nat)
    requires i <= n <= |s| && ValueEnd(s, i).Some? && Follow(s, ValueEnd(s, i).value)
    ensures Parse(s[..n], i).Some? && Parse(s[..n], i).value.end == Min(ValueEnd(s, i).value, n)
  {
    hide At, Parse, Render, TreeOf, ValueEnd, Follow;
    var w, v := ReadValue(s, i);
    var it := Item(w, v, []);
    assert Render(v) + [] == Render(v);
    assert RenderItem(it) == w + Render(v);
    AtConcat(s, i, w, Render(v));
    ItemAgrees(s, n, i, i, it);
  }

  // Between the opening bracket and the closing one there are only blanks, and at least one.
  predicate BlankBrackets(s: bytes) {
    var i := SkipBlanks(s, 0);
    i < |s| && s[i] == LBRACKET &&
      var j := SkipBlanks(s, i + 1); i + 1 < j < |s| && s[j] == RBRACKET
  }

  lemma {:induction false} BlankBracketsCount(s: bytes)
    requires ArrayText(s).Some?
    ensures BlankBrackets(s) <==> ArrayText(s).value == 0 && ArrayEnd(s, SkipBlanks(s, 0)).value > SkipBlanks(s, 0) + 2
  {
    hide SkipBlanks, ItemEnd, ItemsEnd;
  }

  /**
    The two parsers on a text that parse_top_level_array_size accepts: same
    index, and the same number of items unless there are only blanks, and at
    least one, between the brackets; then the tree builder has one.
  */
  lemma {:induction false} ArrayTextAgrees(s: bytes)
    requires ArrayText(s).Some?
    ensures Parse(s, 0).Some? && Parse(s, 0).value.end == ArrayEnd(s, SkipBlanks(s, 0)).value
    ensures |Parse(s, 0).value.tree.a| == ArrayText(s).value <==> !BlankBrackets(s)
    ensures BlankBrackets(s) ==> ArrayText(s).value == 0 && |Parse(s, 0).value.tree.a| == 1
  {
    BlankBracketsCount(s);
    ArrayTextCounts(s);
  }

  /** On `[ ]` the recogniser counts no items and the tree builder has one. */
  lemma {:induction false} BlankBracketsDisagree()
    ensures var s: bytes := [LBRACKET, 0x20, RBRACKET];
      ArrayText(s) == Some(0) && Parse(s, 0).Some? && |Parse(s, 0).value.tree.a| == 1
  {
    var s: bytes := [LBRACKET, 0x20, RBRACKET];
    SkipWhileIs(Space, s, 0, 0);
    SkipWhileIs(Space, s, 1, 2);
    SkipWhileIs(Space, s, 3, 3);
    ArrayTextAgrees(s);
  }

  lemma {:induction false} ArrayTextCounts(s: bytes)
    requires ArrayText(s).Some?
    ensures var i := SkipBlanks(s, 0);
      var end := ArrayEnd(s, i).value;
      var count := ArrayText(s).value;
      && Parse(s, 0).Some? && Parse(s, 0).value.end == end
      && |Parse(s, 0).value.tree.a| == if count == 0 && end > i + 2 then 1 else count
  {
    hide ArrayEnd, ArrayCount, SkipBlanks, Render, RenderItems, Parse, TreeOf, Valid, ValidItem;
    var before := ReadBlank(s, 0);
    var i := |before|;
    var pad, its := ReadArray(s, i);
    var text := Render(Arr(pad, its));
    var after := ReadBlank(s, i + |text|);
    AtConcat(s, i, text, after);
    AtConcat(s, 0, before, text + after);
    assert s == before + (text + after);
    DocumentTree(before, Arr(pad, its), after);
    ArrayLength(pad, its);
  }

  lemma {:induction false} ArrayLength(pad: bytes, its: seq<Item>)
    requires Valid(Arr(pad, its))
    ensures |TreeOf(Arr(pad, its)).a| == if pad != [] then 1 else |its|
    ensures its == [] ==> |Render(Arr(pad, its))| == |pad| + 2
    ensures its != [] ==> pad == []
  {
    AddItemsCount(ARRAY, its);
    hide AddItems, RenderItems, ValidItem;
  }

  /** Every prefix of such a text, cut anywhere, is parsed without hanging. */
  lemma {:induction false} ArrayTextPrefixTerminates(s: bytes, n: nat)
    requires ArrayText(s).Some? && n <= |s|
    ensures Parse(s[..n], 0).Some?
  {
    hide ArrayEnd, ArrayCount, SkipBlanks, Render, Parse;
    var before := ReadBlank(s, 0);
    var pad, its := ReadArray(s, |before|);
    var text := Render(Arr(pad, its));
    var after := ReadBlank(s, |before| + |text|);
    var it := Item(before, Arr(pad, its), after);
    AtConcat(s, |before|, text, after);
    AtConcat(s, 0, before, text + after);
    ItemAgrees(s, n, 0, 0, it);
  }
}
