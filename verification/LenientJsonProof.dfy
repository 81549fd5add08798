/** What holds of the tree builder on every input: when it hangs, and what its trees look like. */
module LenientJsonProof {
  import opened Bytes
  import opened Utf8
  import opened Unescape
  import opened UnescapeProof
  import opened LenientJson

  // ------------------------------------------------------------ no progress

  lemma {:induction false} SkipStops(c: Class, b: bytes, i: nat)
    requires i < |b|
    ensures SkipWhile(c, b, i) == i <==> !In(c, b[i])
  { }

  /** An iteration of the array loop makes no progress exactly on a closing brace. */
  lemma {:induction false} ElementStuck(b: bytes, i: nat)
    requires i < |b| && b[i] != RBRACKET && ParseElement(b, i).Some?
    ensures ParseElement(b, i).value.end == i <==> b[i] == RBRACE
  {
    hide SkipWhile, ParseQuoted, ObjectLoop, ArrayLoop;
    SkipStops(Space, b, i);
    SkipStops(Scalar, b, i);
    SkipStops(SpaceOrComma, b, i);
  }

  /** An iteration of the object loop makes no progress exactly on a closing bracket. */
  lemma {:induction false} EntryStuck(b: bytes, i: nat)
    requires i < |b| && b[i] != RBRACE && ParseEntry(b, i).Some?
    ensures ParseEntry(b, i).value.end == i <==> b[i] == RBRACKET
  {
    hide SkipWhile, ParseQuoted, ObjectLoop, ArrayLoop;
    SkipStops(Space, b, i);
    SkipStops(Scalar, b, i);
    SkipStops(SpaceOrColon, b, i);
    SkipStops(SpaceOrComma, b, i);
  }

  // So the parser is stuck on `[}` and `{]`, whatever follows.
  lemma {:induction false} MismatchedCloserHangs(rest: bytes)
    ensures Parse([LBRACKET, RBRACE] + rest, 0) == None
    ensures Parse([LBRACE, RBRACKET] + rest, 0) == None
  {
    hide SkipWhile, ParseElement, ParseEntry;
    var b, c := [LBRACKET, RBRACE] + rest, [LBRACE, RBRACKET] + rest;
    SkipStops(Space, b, 0);
    SkipStops(Space, c, 0);
    if ParseElement(b, 1).Some? { ElementStuck(b, 1); }
    if ParseEntry(c, 1).Some? { EntryStuck(c, 1); }
  }

  // ------------------------------------------------------- order and object

  predicate NoDuplicates(keys: seq<bytes>) {
    forall x, y :: 0 <= x < y < |keys| ==> keys[x] != keys[y]
  }

  // In every node, `order` lists exactly the keys of `o`, each once.
  ghost predicate Tidy(v: Tree)
    decreases v
  {
    && NoDuplicates(v.order)
    && (forall k :: k in v.order <==> k in v.o)
    && (forall k :: k in v.o ==> Tidy(v.o[k]))
    && (forall c :: c in v.a ==> Tidy(c))
  }

  lemma {:induction false} LeafTidy(s: bytes)
    ensures Tidy(Leaf(s)) && Tidy(EMPTY) && Tidy(EMPTY.(isObj := true)) && Tidy(EMPTY.(isArr := true))
  { }

  lemma {:induction false} AddMemberTidy(v: Tree, key: bytes, child: Tree)
    requires Tidy(v) && Tidy(child)
    ensures Tidy(AddMember(v, key, child))
  {
    var w := AddMember(v, key, child);
    forall k
      ensures k in w.order <==> k in w.o
    {
      if key !in v.o { assert k in w.order <==> k in v.order || k == key; }
    }
    assert NoDuplicates(w.order);
  }

  lemma {:induction false} AddItemTidy(v: Tree, child: Tree)
    requires Tidy(v) && Tidy(child)
    ensures Tidy(AddItem(v, child))
  { }

  lemma {:induction false} ParseTidy(b: bytes, i: nat)
    requires i <= |b| && Parse(b, i).Some?
    ensures Tidy(Parse(b, i).value.tree)
    decreases |b| - i, 0
  {
    hide SkipWhile, CloseQuote, Unescaped, Tidy, ObjectLoop, ArrayLoop;
    var k := SkipWhile(Space, b, i);
    LeafTidy(Parse(b, i).value.tree.s);
    if k < |b| && b[k] == LBRACE {
      ObjectLoopTidy(b, k + 1, EMPTY.(isObj := true));
    } else if k < |b| && b[k] == LBRACKET {
      ArrayLoopTidy(b, k + 1, EMPTY.(isArr := true));
    }
  }

  lemma {:induction false} ObjectLoopTidy(b: bytes, i: nat, v: Tree)
    requires i <= |b| && Tidy(v) && ObjectLoop(b, i, v).Some?
    ensures Tidy(ObjectLoop(b, i, v).value.tree)
    decreases |b| - i, 2
  {
    hide SkipWhile, Tidy, Parse, AddMember;
    if i < |b| && b[i] != RBRACE {
      var key := Parse(b, i).value;
      var m := SkipWhile(SpaceOrColon, b, key.end);
      var e := ParseEntry(b, i).value;
      ParseTidy(b, m);
      AddMemberTidy(v, e.key, e.child);
      ObjectLoopTidy(b, e.end, AddMember(v, e.key, e.child));
    }
  }

  lemma {:induction false} ArrayLoopTidy(b: bytes, i: nat, v: Tree)
    requires i <= |b| && Tidy(v) && ArrayLoop(b, i, v).Some?
    ensures Tidy(ArrayLoop(b, i, v).value.tree)
    decreases |b| - i, 2
  {
    hide SkipWhile, Tidy, Parse, AddItem;
    if i < |b| && b[i] != RBRACKET {
      ParseTidy(b, i);
      var e := ParseElement(b, i).value;
      AddItemTidy(v, e.tree);
      ArrayLoopTidy(b, e.end, AddItem(v, e.tree));
    }
  }

  // ------------------------------------------------------------------ UTF-8

  // Every string in the tree, keys included, is well-formed UTF-8.
  ghost predicate Utf8Tree(v: Tree)
    decreases v
  {
    && WellFormed(v.s)
    && (forall k :: k in v.o ==> WellFormed(k) && Utf8Tree(v.o[k]))
    && (forall c :: c in v.a ==> Utf8Tree(c))
  }

  // A place where `b` may be cut without splitting a character.
  predicate Boundary(b: bytes, i: nat) { i <= |b| && WellFormed(b[..i]) && WellFormed(b[i..]) }

  lemma {:induction false} CutBefore(b: bytes, i: nat)
    requires WellFormed(b) && i <= |b| && (i < |b| ==> b[i] <= 0x7F)
    ensures Boundary(b, i)
    decreases |b|
  {
    hide CharLength, Decode;
    DecodeEmpty();
    if i == 0 {
      assert b[..0] == [] && b[0..] == b;
    } else {
      var n := CharLength(b);
      FirstChar(b);
      if i < n {
        LongCharBytes(b, i);
        assert false;
      } else {
        CutBefore(b[n..], i - n);
        WellFormedConcat(b[..n], b[n..][..i - n]);
        assert b[..i] == b[..n] + b[n..][..i - n];
        assert b[i..] == b[n..][i - n..];
      }
    }
  }

  lemma {:induction false} CutAfter(b: bytes, i: nat)
    requires WellFormed(b) && i < |b| && b[i] <= 0x7F
    ensures Boundary(b, i + 1)
  {
    hide Decode;
    CutBefore(b, i);
    DropAscii(b, i);
    OneByte(b[i]);
    WellFormedConcat(b[..i], [b[i]]);
    assert b[..i + 1] == b[..i] + [b[i]];
  }

  lemma {:induction false} Slice(b: bytes, i: nat, j: nat)
    requires Boundary(b, i) && i <= j <= |b| && (j < |b| ==> b[j] <= 0x7F)
    ensures WellFormed(b[i..j])
  {
    hide Decode;
    CutBefore(b[i..], j - i);
    assert b[i..][..j - i] == b[i..j];
  }

  lemma {:induction false} SkipBoundary(c: Class, b: bytes, i: nat)
    requires !c.Scalar? && WellFormed(b) && Boundary(b, i)
    ensures Boundary(b, SkipWhile(c, b, i))
  {
    hide Decode;
    var j := SkipWhile(c, b, i);
    if i < j {
      AsciiClass(c, b[j - 1]);
      CutAfter(b, j - 1);
    }
  }

  lemma {:induction false} AsciiClass(c: Class, x: byte)
    requires !c.Scalar? && In(c, x)
    ensures x <= 0x7F
  { }

  lemma {:induction false} DelimiterIsAscii(x: byte)
    requires !In(Scalar, x)
    ensures x <= 0x7F
  { }

  lemma {:induction false} LeafUtf8(s: bytes)
    requires WellFormed(s)
    ensures Utf8Tree(Leaf(s))
    ensures Utf8Tree(EMPTY) && Utf8Tree(EMPTY.(isObj := true)) && Utf8Tree(EMPTY.(isArr := true))
  {
    DecodeEmpty();
  }

  lemma {:induction false} AddMemberUtf8(v: Tree, key: bytes, child: Tree)
    requires Utf8Tree(v) && WellFormed(key) && Utf8Tree(child)
    ensures Utf8Tree(AddMember(v, key, child))
  { }

  lemma {:induction false} AddItemUtf8(v: Tree, child: Tree)
    requires Utf8Tree(v) && Utf8Tree(child)
    ensures Utf8Tree(AddItem(v, child))
  { }

  lemma {:induction false} QuotedUtf8(b: bytes, k: nat)
    requires WellFormed(b) && k < |b| && b[k] == QUOTE
    ensures Boundary(b, ParseQuoted(b, k).end) && Utf8Tree(ParseQuoted(b, k).tree)
  {
    hide Boundary, Decode, Utf8Tree, Unescaped;
    var e := CloseQuote(b, k + 1, false);
    CutAfter(b, k);
    Slice(b, k + 1, e);
    UnescapeKeepsUtf8(b[k + 1..e]);
    LeafUtf8(Unescaped(b[k + 1..e]));
    if e < |b| { CutAfter(b, e); } else { CutBefore(b, e); }
  }

  lemma {:induction false} ScalarUtf8(b: bytes, k: nat)
    requires WellFormed(b) && k < |b| && Boundary(b, k)
    ensures Boundary(b, ParseScalar(b, k).end) && Utf8Tree(ParseScalar(b, k).tree)
  {
    hide Boundary, Decode, Utf8Tree;
    var e := SkipWhile(Scalar, b, k);
    if e < |b| { DelimiterIsAscii(b[e]); }
    CutBefore(b, e);
    Slice(b, k, e);
    LeafUtf8(b[k..e]);
  }

  lemma {:induction false} ParseUtf8(b: bytes, i: nat)
    requires WellFormed(b) && Boundary(b, i) && Parse(b, i).Some?
    ensures Boundary(b, Parse(b, i).value.end) && Utf8Tree(Parse(b, i).value.tree)
    decreases |b| - i, 0
  {
    hide SkipWhile, ParseQuoted, ParseScalar, Decode, Utf8Tree, ObjectLoop, ArrayLoop;
    var k := SkipWhile(Space, b, i);
    SkipBoundary(Space, b, i);
    DecodeEmpty();
    LeafUtf8([]);
    if k < |b| {
      if b[k] == QUOTE {
        QuotedUtf8(b, k);
      } else if b[k] == LBRACE {
        CutAfter(b, k);
        ObjectLoopUtf8(b, k + 1, EMPTY.(isObj := true));
      } else if b[k] == LBRACKET {
        CutAfter(b, k);
        ArrayLoopUtf8(b, k + 1, EMPTY.(isArr := true));
      } else {
        ScalarUtf8(b, k);
      }
    }
  }

  lemma {:induction false} ObjectLoopUtf8(b: bytes, i: nat, v: Tree)
    requires WellFormed(b) && Boundary(b, i) && Utf8Tree(v) && ObjectLoop(b, i, v).Some?
    ensures Boundary(b, ObjectLoop(b, i, v).value.end) && Utf8Tree(ObjectLoop(b, i, v).value.tree)
    decreases |b| - i, 2
  {
    hide SkipWhile, Utf8Tree, Decode, Parse, AddMember;
    if i < |b| {
      if b[i] == RBRACE {
        CutAfter(b, i);
      } else {
        ParseUtf8(b, i);
        var key := Parse(b, i).value;
        SkipBoundary(SpaceOrColon, b, key.end);
        var m := SkipWhile(SpaceOrColon, b, key.end);
        ParseUtf8(b, m);
        var child := Parse(b, m).value;
        SkipBoundary(SpaceOrComma, b, child.end);
        var e := ParseEntry(b, i).value;
        TreeText(key.tree);
        AddMemberUtf8(v, e.key, e.child);
        ObjectLoopUtf8(b, e.end, AddMember(v, e.key, e.child));
      }
    }
  }

  lemma {:induction false} TreeText(v: Tree)
    requires Utf8Tree(v)
    ensures WellFormed(v.s)
  { }

  lemma {:induction false} ArrayLoopUtf8(b: bytes, i: nat, v: Tree)
    requires WellFormed(b) && Boundary(b, i) && Utf8Tree(v) && ArrayLoop(b, i, v).Some?
    ensures Boundary(b, ArrayLoop(b, i, v).value.end) && Utf8Tree(ArrayLoop(b, i, v).value.tree)
    decreases |b| - i, 2
  {
    hide SkipWhile, Utf8Tree, Decode, Parse, AddItem;
    if i < |b| {
      if b[i] == RBRACKET {
        CutAfter(b, i);
      } else {
        ParseUtf8(b, i);
        SkipBoundary(SpaceOrComma, b, Parse(b, i).value.end);
        var e := ParseElement(b, i).value;
        AddItemUtf8(v, e.tree);
        ArrayLoopUtf8(b, e.end, AddItem(v, e.tree));
      }
    }
  }

  /** Every string in the tree of a well-formed body is well-formed. */
  lemma {:induction false} BodyUtf8(b: bytes)
    requires WellFormed(b) && Parse(b, 0).Some?
    ensures Utf8Tree(Parse(b, 0).value.tree)
  {
    hide Decode, Parse, Utf8Tree;
    DecodeEmpty();
    assert b[..0] == [] && b[0..] == b;
    ParseUtf8(b, 0);
  }
}
