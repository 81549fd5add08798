/**
  JSON::parse of utils.cpp, the tree builder that accepts anything. Its two
  bracket loops can take a turn without moving the index; every later turn then
  does the same, and the C++ never returns (on an array it also appends an
  element in every turn). The functions answer None there; LenientRun proves that
  this is exactly when the loops, run as they are, never end.
*/
module LenientJson {
  import opened Bytes
  import opened Unescape

  datatype Tree = Tree(
    s: bytes,
    o: map<bytes, Tree>,
    order: seq<bytes>,
    a: seq<Tree>,
    isObj: bool,
    isArr: bool)

  datatype Parsed = Parsed(tree: Tree, end: nat)

  const EMPTY: Tree := Tree([], map[], [], [], false, false)

  function Leaf(s: bytes): Tree { EMPTY.(s := s) }

  // v.order and v.o after `v.o[key] = child`.
  function AddMember(v: Tree, key: bytes, child: Tree): Tree {
    v.(order := if key in v.o then v.order else v.order + [key], o := v.o[key := child])
  }

  function AddItem(v: Tree, child: Tree): Tree { v.(a := v.a + [child]) }

  // The index of the quote that closes a string, or |b|.
  function CloseQuote(b: bytes, i: nat, escaped: bool): (j: nat)
    requires i <= |b|
    ensures i <= j <= |b|
    ensures j < |b| ==> b[j] == QUOTE
    decreases |b| - i
  {
    if i == |b| then i
    else if escaped then CloseQuote(b, i + 1, false)
    else if b[i] == BACKSLASH then CloseQuote(b, i + 1, true)
    else if b[i] == QUOTE then i
    else CloseQuote(b, i + 1, false)
  }

  // The string whose opening quote is at i.
  function ParseQuoted(b: bytes, i: nat): (r: Parsed)
    requires i < |b|
    ensures i < r.end <= |b|
  {
    var e := CloseQuote(b, i + 1, false);
    Parsed(Leaf(Unescaped(b[i + 1..e])), if e < |b| then e + 1 else e)
  }

  function ParseScalar(b: bytes, i: nat): (r: Parsed)
    requires i <= |b|
    ensures i <= r.end <= |b|
  {
    var e := SkipWhile(Scalar, b, i);
    Parsed(Leaf(b[i..e]), e)
  }

  function Parse(b: bytes, i: nat): (r: Option<Parsed>)
    requires i <= |b|
    ensures r.Some? ==> i <= r.value.end <= |b|
    decreases |b| - i, 0
  {
    var k := SkipWhile(Space, b, i);
    if k == |b| then Some(Parsed(EMPTY, k))
    else if b[k] == QUOTE then Some(ParseQuoted(b, k))
    else if b[k] == LBRACE then ObjectLoop(b, k + 1, EMPTY.(isObj := true))
    else if b[k] == LBRACKET then ArrayLoop(b, k + 1, EMPTY.(isArr := true))
    else Some(ParseScalar(b, k))
  }

  // The object loop at its head, with `v` built so far.
  function ObjectLoop(b: bytes, i: nat, v: Tree): (r: Option<Parsed>)
    requires i <= |b|
    ensures r.Some? ==> i <= r.value.end <= |b|
    decreases |b| - i, 2
  {
    if i == |b| then Some(Parsed(v, i))
    else if b[i] == RBRACE then Some(Parsed(v, i + 1))
    else
      match ParseEntry(b, i)
      case None => None
      case Some(e) => if e.end == i then None else ObjectLoop(b, e.end, AddMember(v, e.key, e.child))
  }

  datatype Entry = Entry(key: bytes, child: Tree, end: nat)

  // One iteration of the object loop.
  function ParseEntry(b: bytes, i: nat): (r: Option<Entry>)
    requires i <= |b|
    ensures r.Some? ==> i <= r.value.end <= |b|
    decreases |b| - i, 1
  {
    match Parse(b, i)
    case None => None
    case Some(key) =>
      match Parse(b, SkipWhile(SpaceOrColon, b, key.end))
      case None => None
      case Some(child) => Some(Entry(key.tree.s, child.tree, SkipWhile(SpaceOrComma, b, child.end)))
  }

  // The array loop at its head, with `v` built so far.
  function ArrayLoop(b: bytes, i: nat, v: Tree): (r: Option<Parsed>)
    requires i <= |b|
    ensures r.Some? ==> i <= r.value.end <= |b|
    decreases |b| - i, 2
  {
    if i == |b| then Some(Parsed(v, i))
    else if b[i] == RBRACKET then Some(Parsed(v, i + 1))
    else
      match ParseElement(b, i)
      case None => None
      case Some(e) => if e.end == i then None else ArrayLoop(b, e.end, AddItem(v, e.tree))
  }

  // One iteration of the array loop.
  function ParseElement(b: bytes, i: nat): (r: Option<Parsed>)
    requires i <= |b|
    ensures r.Some? ==> i <= r.value.end <= |b|
    decreases |b| - i, 1
  {
    match Parse(b, i)
    case None => None
    case Some(child) => Some(Parsed(child.tree, SkipWhile(SpaceOrComma, b, child.end)))
  }

  // One turn of the array loop.
  lemma {:induction false} ArrayTurn(b: bytes, i: nat, v: Tree, child: Parsed, next: nat)
    requires i < |b| && b[i] != RBRACKET && Parse(b, i) == Some(child)
    requires SkipWhile(SpaceOrComma, b, child.end) == next != i
    ensures ArrayLoop(b, i, v) == ArrayLoop(b, next, AddItem(v, child.tree))
  {
    hide Parse, SkipWhile, AddItem;
  }

  lemma {:induction false} ArrayStops(b: bytes, i: nat, v: Tree)
    requires i <= |b| && (i < |b| ==> b[i] == RBRACKET)
    ensures ArrayLoop(b, i, v) == Some(Parsed(v, if i < |b| then i + 1 else i))
  { }

  // One turn of the object loop.
  lemma {:induction false} ObjectTurn(b: bytes, i: nat, v: Tree, key: Parsed, child: Parsed, next: nat)
    requires i < |b| && b[i] != RBRACE && Parse(b, i) == Some(key) && key.end <= |b|
    requires Parse(b, SkipWhile(SpaceOrColon, b, key.end)) == Some(child)
    requires child.end <= |b| && SkipWhile(SpaceOrComma, b, child.end) == next != i
    ensures ObjectLoop(b, i, v) == ObjectLoop(b, next, AddMember(v, key.tree.s, child.tree))
  {
    hide Parse, SkipWhile, AddMember;
  }

  lemma {:induction false} ObjectStops(b: bytes, i: nat, v: Tree)
    requires i <= |b| && (i < |b| ==> b[i] == RBRACE)
    ensures ObjectLoop(b, i, v) == Some(Parsed(v, if i < |b| then i + 1 else i))
  { }

  // A loop that returns makes progress in every turn, and both its parses return.
  lemma {:induction false} EntryReturns(b: bytes, i: nat, v: Tree)
    requires i < |b| && b[i] != RBRACE && ObjectLoop(b, i, v).Some?
    ensures Parse(b, i).Some?
    ensures var m := SkipWhile(SpaceOrColon, b, Parse(b, i).value.end);
      Parse(b, m).Some? && SkipWhile(SpaceOrComma, b, Parse(b, m).value.end) > i
  {
    hide SkipWhile, Parse, AddMember;
  }

  lemma {:induction false} ElementReturns(b: bytes, i: nat, v: Tree)
    requires i < |b| && b[i] != RBRACKET && ArrayLoop(b, i, v).Some?
    ensures Parse(b, i).Some? && SkipWhile(SpaceOrComma, b, Parse(b, i).value.end) > i
  {
    hide SkipWhile, Parse, AddItem;
  }

  // ------------------------------------------------------- the C++ function

  method SkipClass(c: Class, b: bytes, i: nat) returns (j: nat)
    requires i <= |b|
    ensures j == SkipWhile(c, b, i)
  {
    j := i;
    while j < |b| && In(c, b[j])
      invariant i <= j <= |b|
      invariant forall k :: i <= k < j ==> In(c, b[k])
    {
      j := j + 1;
    }
    SkipWhileIs(c, b, i, j);
  }

  method ScanString(b: bytes, start: nat) returns (j: nat)
    requires start <= |b|
    ensures j == CloseQuote(b, start, false)
  {
    j := start;
    var escaped := false;
    while j < |b|
      invariant start <= j <= |b|
      invariant CloseQuote(b, start, false) == CloseQuote(b, j, escaped)
    {
      if escaped {
        escaped := false;
      } else if b[j] == BACKSLASH {
        escaped := true;
      } else if b[j] == QUOTE {
        return;
      }
      j := j + 1;
    }
  }

  /** The parser itself, on the inputs on which it returns. */
  method ParseTree(b: bytes, i: nat) returns (v: Tree, j: nat)
    requires i <= |b| && Parse(b, i).Some?
    ensures Parse(b, i) == Some(Parsed(v, j))
    decreases |b| - i, 0
  {
    hide SkipWhile, CloseQuote, Unescaped, ParseEntry, ParseElement;
    j := SkipClass(Space, b, i);
    v := EMPTY;
    if j == |b| { return; }
    if b[j] == QUOTE {
      j := j + 1;
      var start := j;
      j := ScanString(b, start);
      var text := UnescapeText(b[start..j]);
      v := v.(s := text);
      if j < |b| { j := j + 1; }
    } else if b[j] == LBRACE {
      v := v.(isObj := true);
      v, j := ParseObjectBody(b, j + 1, v);
    } else if b[j] == LBRACKET {
      v := v.(isArr := true);
      v, j := ParseArrayBody(b, j + 1, v);
    } else {
      var start := j;
      j := SkipClass(Scalar, b, start);
      v := v.(s := b[start..j]);
    }
  }

  method ParseObjectBody(b: bytes, i: nat, v0: Tree) returns (v: Tree, j: nat)
    requires i <= |b| && ObjectLoop(b, i, v0).Some?
    ensures ObjectLoop(b, i, v0) == Some(Parsed(v, j))
    decreases |b| - i, 2
  {
    hide SkipWhile, Parse, ObjectLoop;
    v, j := v0, i;
    while j < |b| && b[j] != RBRACE
      invariant i <= j <= |b|
      invariant ObjectLoop(b, i, v0) == ObjectLoop(b, j, v)
      decreases |b| - j
    {
      EntryReturns(b, j, v);
      ghost var from, w := j, v;
      var key, child;
      key, j := ParseTree(b, j);
      ghost var k := Parsed(key, j);
      j := SkipClass(SpaceOrColon, b, j);
      if key.s !in v.o { v := v.(order := v.order + [key.s]); }
      child, j := ParseTree(b, j);
      ghost var c := Parsed(child, j);
      v := v.(o := v.o[key.s := child]);
      j := SkipClass(SpaceOrComma, b, j);
      ObjectTurn(b, from, w, k, c, j);
    }
    ObjectStops(b, j, v);
    if j < |b| { j := j + 1; }
  }

  method ParseArrayBody(b: bytes, i: nat, v0: Tree) returns (v: Tree, j: nat)
    requires i <= |b| && ArrayLoop(b, i, v0).Some?
    ensures ArrayLoop(b, i, v0) == Some(Parsed(v, j))
    decreases |b| - i, 2
  {
    hide SkipWhile, Parse, ArrayLoop;
    v, j := v0, i;
    while j < |b| && b[j] != RBRACKET
      invariant i <= j <= |b|
      invariant ArrayLoop(b, i, v0) == ArrayLoop(b, j, v)
      decreases |b| - j
    {
      ElementReturns(b, j, v);
      ghost var from, w := j, v;
      var child;
      child, j := ParseTree(b, j);
      ghost var c := Parsed(child, j);
      v := v.(a := v.a + [child]);
      j := SkipClass(SpaceOrComma, b, j);
      ArrayTurn(b, from, w, c, j);
    }
    ArrayStops(b, j, v);
    if j < |b| { j := j + 1; }
  }
}
