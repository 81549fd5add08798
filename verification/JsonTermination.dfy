/**
  When JSON::parse of utils.cpp returns: exactly when a single pass over the
  text, with a stack of the brackets that are open, meets no closing bracket of
  the other kind where an item or a key is due.
*/
module JsonTermination {
  import opened Bytes
  import opened LenientJson
  import opened LenientJsonProof
  import opened LenientRun

  // An open array; an open object at a key; an open object at a value.
  datatype Frame = Items | Keys | Child

  // The three points of the pass: a value is due, a value has just ended, or
  // the text stands where an item or a key may start or the bracket may close.
  datatype Phase = ValuePhase | AfterPhase | HeadPhase

  // Orders the points that can follow each other without moving on.
  function Rank(b: bytes, i: nat, phase: Phase, frame: Frame): nat
    requires i <= |b|
  {
    if i == |b| || b[i] == RBRACE || b[i] == RBRACKET then
      match frame
      case Keys => if phase.ValuePhase? then 5 else if phase.AfterPhase? then 4 else 1
      case _ => if phase.ValuePhase? then 3 else if phase.AfterPhase? then 2 else 1
    else if b[i] == COMMA then
      match frame
      case Keys => if phase.HeadPhase? then 5 else if phase.ValuePhase? then 4 else 3
      case _ => if phase.HeadPhase? then 3 else if phase.ValuePhase? then 2 else 1
    else
      match frame
      case Items => if phase.AfterPhase? then 3 else if phase.HeadPhase? then 2 else 1
      case Keys => if phase.HeadPhase? then 3 else 2
      case Child => if phase.AfterPhase? then 4 else 1
  }

  function Top(stack: seq<Frame>): Frame { if stack == [] then Items else stack[|stack| - 1] }

  function Rest(stack: seq<Frame>): seq<Frame>
    requires stack != []
  {
    stack[..|stack| - 1]
  }

  // A value is due at i.
  predicate ValueDue(b: bytes, i: nat, stack: seq<Frame>)
    requires i <= |b|
    decreases |b| - i, |stack|, Rank(b, i, ValuePhase, Top(stack))
  {
    SkipStopsAt(Space, b, i);
    var k := SkipWhile(Space, b, i);
    if k == |b| then ValueEnded(b, k, stack)
    else if b[k] == QUOTE then ValueEnded(b, ParseQuoted(b, k).end, stack)
    else if b[k] == LBRACE then AtHead(b, k + 1, stack + [Keys])
    else if b[k] == LBRACKET then AtHead(b, k + 1, stack + [Items])
    else
      SkipStopsAt(Scalar, b, k);
      ValueEnded(b, SkipWhile(Scalar, b, k), stack)
  }

  // A value has ended at i.
  predicate ValueEnded(b: bytes, i: nat, stack: seq<Frame>)
    requires i <= |b|
    decreases |b| - i, |stack|, Rank(b, i, AfterPhase, Top(stack))
  {
    if stack == [] then true
    else if Top(stack) == Keys then
      SkipStopsAt(SpaceOrColon, b, i);
      ValueDue(b, SkipWhile(SpaceOrColon, b, i), Rest(stack) + [Child])
    else
      SkipStopsAt(SpaceOrComma, b, i);
      AtHead(b, SkipWhile(SpaceOrComma, b, i), Rest(stack) + [if Top(stack) == Child then Keys else Items])
  }

  // An item or a key may start at i, or the innermost bracket may close.
  predicate AtHead(b: bytes, i: nat, stack: seq<Frame>)
    requires i <= |b| && stack != [] && Top(stack) != Child
    decreases |b| - i, |stack|, Rank(b, i, HeadPhase, Top(stack))
  {
    if i == |b| then ValueEnded(b, i, Rest(stack))
    else if b[i] == (if Top(stack) == Keys then RBRACE else RBRACKET) then ValueEnded(b, i + 1, Rest(stack))
    else if b[i] == (if Top(stack) == Keys then RBRACKET else RBRACE) then false
    else ValueDue(b, i, stack)
  }

  lemma {:induction false} SkipStopsAt(c: Class, b: bytes, i: nat)
    requires i <= |b|
    ensures SkipWhile(c, b, i) == i <==> i == |b| || !In(c, b[i])
  { }

  // ------------------------------------------------- the parser and the pass

  // Parsing from i returns, and the pass goes on from where it stopped.
  predicate GoesOn(r: Option<Parsed>, b: bytes, stack: seq<Frame>)
    requires r.Some? ==> r.value.end <= |b|
  {
    r.Some? && ValueEnded(b, r.value.end, stack)
  }

  lemma {:induction false} TopOf(stack: seq<Frame>, frame: Frame)
    ensures Top(stack + [frame]) == frame && Rest(stack + [frame]) == stack
  { }

  lemma {:induction false} ParseGoesOn(b: bytes, i: nat, stack: seq<Frame>)
    requires i <= |b|
    ensures ValueDue(b, i, stack) == GoesOn(Parse(b, i), b, stack)
    decreases |b| - i, 0
  {
    hide ObjectLoop, ArrayLoop, AtHead, ValueEnded, SkipWhile, ParseQuoted;
    var k := SkipWhile(Space, b, i);
    if k < |b| && b[k] == LBRACE {
      ObjectGoesOn(b, k + 1, EMPTY.(isObj := true), stack);
    } else if k < |b| && b[k] == LBRACKET {
      ArrayGoesOn(b, k + 1, EMPTY.(isArr := true), stack);
    }
  }

  lemma {:induction false} KeyEnded(b: bytes, i: nat, stack: seq<Frame>)
    requires i <= |b|
    ensures ValueEnded(b, i, stack + [Keys]) == ValueDue(b, SkipWhile(SpaceOrColon, b, i), stack + [Child])
    ensures ValueEnded(b, i, stack + [Child]) == AtHead(b, SkipWhile(SpaceOrComma, b, i), stack + [Keys])
    ensures ValueEnded(b, i, stack + [Items]) == AtHead(b, SkipWhile(SpaceOrComma, b, i), stack + [Items])
  {
    hide AtHead, ValueDue, SkipWhile;
    TopOf(stack, Keys);
    TopOf(stack, Child);
    TopOf(stack, Items);
  }

  // What the pass does where an item or a key may start.
  lemma {:induction false} HeadIs(b: bytes, i: nat, stack: seq<Frame>, frame: Frame)
    requires i <= |b| && frame != Child
    ensures Top(stack + [frame]) == frame
    ensures i == |b| ==> AtHead(b, i, stack + [frame]) == ValueEnded(b, i, stack)
    ensures i < |b| && b[i] == (if frame == Keys then RBRACE else RBRACKET) ==>
      AtHead(b, i, stack + [frame]) == ValueEnded(b, i + 1, stack)
    ensures i < |b| && b[i] == (if frame == Keys then RBRACKET else RBRACE) ==> !AtHead(b, i, stack + [frame])
    ensures i < |b| && b[i] != RBRACE && b[i] != RBRACKET ==>
      AtHead(b, i, stack + [frame]) == ValueDue(b, i, stack + [frame])
  {
    hide ValueEnded, ValueDue;
    TopOf(stack, frame);
  }

  lemma {:induction false} ObjectGoesOn(b: bytes, i: nat, v: Tree, stack: seq<Frame>)
    requires i <= |b|
    ensures Top(stack + [Keys]) == Keys
    ensures AtHead(b, i, stack + [Keys]) == GoesOn(ObjectLoop(b, i, v), b, stack)
    decreases |b| - i, 2
  {
    hide Parse, AtHead, ValueEnded, ValueDue, SkipWhile, AddMember, ObjectLoop;
    HeadIs(b, i, stack, Keys);
    if i == |b| || b[i] == RBRACE {
      ObjectStops(b, i, v);
    } else {
      if ParseEntry(b, i).Some? { EntryStuck(b, i); }
      ObjectUnfolds(b, i, v);
      if b[i] != RBRACKET {
        ParseGoesOn(b, i, stack + [Keys]);
        var key := Parse(b, i);
        if key.Some? {
          KeyEnded(b, key.value.end, stack);
          var m := SkipWhile(SpaceOrColon, b, key.value.end);
          ParseGoesOn(b, m, stack + [Child]);
          var child := Parse(b, m);
          if child.Some? {
            KeyEnded(b, child.value.end, stack);
            var next := SkipWhile(SpaceOrComma, b, child.value.end);
            ObjectGoesOn(b, next, AddMember(v, key.value.tree.s, child.value.tree), stack);
          }
        }
      }
    }
  }

  lemma {:induction false} ObjectUnfolds(b: bytes, i: nat, v: Tree)
    requires i < |b| && b[i] != RBRACE
    ensures ParseEntry(b, i) == None ==> ObjectLoop(b, i, v) == None
    ensures ParseEntry(b, i).Some? ==>
      var e := ParseEntry(b, i).value;
      ObjectLoop(b, i, v) == if e.end == i then None else ObjectLoop(b, e.end, AddMember(v, e.key, e.child))
  {
    hide ParseEntry, AddMember;
  }

  lemma {:induction false} ArrayUnfolds(b: bytes, i: nat, v: Tree)
    requires i < |b| && b[i] != RBRACKET
    ensures ParseElement(b, i) == None ==> ArrayLoop(b, i, v) == None
    ensures ParseElement(b, i).Some? ==>
      var e := ParseElement(b, i).value;
      ArrayLoop(b, i, v) == if e.end == i then None else ArrayLoop(b, e.end, AddItem(v, e.tree))
  {
    hide ParseElement, AddItem;
  }

  lemma {:induction false} ArrayGoesOn(b: bytes, i: nat, v: Tree, stack: seq<Frame>)
    requires i <= |b|
    ensures Top(stack + [Items]) == Items
    ensures AtHead(b, i, stack + [Items]) == GoesOn(ArrayLoop(b, i, v), b, stack)
    decreases |b| - i, 2
  {
    hide Parse, AtHead, ValueEnded, ValueDue, SkipWhile, AddItem, ArrayLoop;
    HeadIs(b, i, stack, Items);
    if i == |b| || b[i] == RBRACKET {
      ArrayStops(b, i, v);
    } else {
      if ParseElement(b, i).Some? { ElementStuck(b, i); }
      ArrayUnfolds(b, i, v);
      if b[i] != RBRACE {
        ParseGoesOn(b, i, stack + [Items]);
        var child := Parse(b, i);
        if child.Some? {
          KeyEnded(b, child.value.end, stack);
          ArrayGoesOn(b, SkipWhile(SpaceOrComma, b, child.value.end), AddItem(v, child.value.tree), stack);
        }
      }
    }
  }

  /** The parser returns exactly on the texts in which the pass meets no mismatched closing bracket. */
  lemma {:induction false} ReturnsExactly(b: bytes)
    ensures Returns(b) <==> ValueDue(b, 0, [])
    ensures Returns(b) <==> Parse(b, 0).Some?
  {
    hide Returns, Parse, ValueDue, ValueEnded;
    ParseIsRunning(b);
    ParseGoesOn(b, 0, []);
    Bottom(b);
  }

  lemma {:induction false} Bottom(b: bytes)
    ensures forall i: nat :: i <= |b| ==> ValueEnded(b, i, [])
  { }
}
