/**
  JSON::parse of utils.cpp as it runs: loops without any check of progress,
  under a bound on the number of nested calls and loop turns. That the bound is
  never enough is what it means not to return.
*/
module LenientRun {
  import opened Bytes
  import opened LenientJson
  import opened LenientJsonProof

  // None: `fuel` was not enough.
  function Run(b: bytes, i: nat, fuel: nat): (r: Option<Parsed>)
    requires i <= |b|
    ensures r.Some? ==> i <= r.value.end <= |b|
    decreases fuel, 1
  {
    var k := SkipWhile(Space, b, i);
    if k == |b| then Some(Parsed(EMPTY, k))
    else if b[k] == QUOTE then Some(ParseQuoted(b, k))
    else if b[k] == LBRACE then RunObject(b, k + 1, EMPTY.(isObj := true), fuel)
    else if b[k] == LBRACKET then RunArray(b, k + 1, EMPTY.(isArr := true), fuel)
    else Some(ParseScalar(b, k))
  }

  // The object loop at its head.
  function RunObject(b: bytes, i: nat, v: Tree, fuel: nat): (r: Option<Parsed>)
    requires i <= |b|
    ensures r.Some? ==> i <= r.value.end <= |b|
    decreases fuel, 0
  {
    if i == |b| then Some(Parsed(v, i))
    else if b[i] == RBRACE then Some(Parsed(v, i + 1))
    else if fuel == 0 then None
    else
      match Run(b, i, fuel - 1)
      case None => None
      case Some(key) =>
        match Run(b, SkipWhile(SpaceOrColon, b, key.end), fuel - 1)
        case None => None
        case Some(child) =>
          RunObject(b, SkipWhile(SpaceOrComma, b, child.end), AddMember(v, key.tree.s, child.tree), fuel - 1)
  }

  // The array loop at its head.
  function RunArray(b: bytes, i: nat, v: Tree, fuel: nat): (r: Option<Parsed>)
    requires i <= |b|
    ensures r.Some? ==> i <= r.value.end <= |b|
    decreases fuel, 0
  {
    if i == |b| then Some(Parsed(v, i))
    else if b[i] == RBRACKET then Some(Parsed(v, i + 1))
    else if fuel == 0 then None
    else
      match Run(b, i, fuel - 1)
      case None => None
      case Some(child) => RunArray(b, SkipWhile(SpaceOrComma, b, child.end), AddItem(v, child.tree), fuel - 1)
  }

  // The parser returns.
  ghost predicate Returns(b: bytes) { exists fuel: nat :: Run(b, 0, fuel).Some? }

  // --------------------------------------------- what a run returns is Parse

  lemma {:induction false} RunIsParse(b: bytes, i: nat, fuel: nat)
    requires i <= |b| && Run(b, i, fuel).Some?
    ensures Parse(b, i) == Run(b, i, fuel)
    decreases fuel, 1
  {
    hide RunObject, RunArray, ObjectLoop, ArrayLoop, SkipWhile, ParseQuoted, ParseScalar;
    var k := SkipWhile(Space, b, i);
    if k < |b| && b[k] == LBRACE { RunIsObjectLoop(b, k + 1, EMPTY.(isObj := true), fuel); }
    if k < |b| && b[k] == LBRACKET { RunIsArrayLoop(b, k + 1, EMPTY.(isArr := true), fuel); }
  }

  lemma {:induction false} RunIsObjectLoop(b: bytes, i: nat, v: Tree, fuel: nat)
    requires i <= |b| && RunObject(b, i, v, fuel).Some?
    ensures ObjectLoop(b, i, v) == RunObject(b, i, v, fuel)
    decreases fuel, 0
  {
    hide Run, Parse, SkipWhile, AddMember;
    if i < |b| && b[i] != RBRACE {
      RunIsParse(b, i, fuel - 1);
      var key := Run(b, i, fuel - 1).value;
      var m := SkipWhile(SpaceOrColon, b, key.end);
      RunIsParse(b, m, fuel - 1);
      var child := Run(b, m, fuel - 1).value;
      RunIsObjectLoop(b, SkipWhile(SpaceOrComma, b, child.end), AddMember(v, key.tree.s, child.tree), fuel - 1);
    }
  }

  lemma {:induction false} RunIsArrayLoop(b: bytes, i: nat, v: Tree, fuel: nat)
    requires i <= |b| && RunArray(b, i, v, fuel).Some?
    ensures ArrayLoop(b, i, v) == RunArray(b, i, v, fuel)
    decreases fuel, 0
  {
    hide Run, Parse, SkipWhile, AddItem;
    if i < |b| && b[i] != RBRACKET {
      RunIsParse(b, i, fuel - 1);
      var child := Run(b, i, fuel - 1).value;
      RunIsArrayLoop(b, SkipWhile(SpaceOrComma, b, child.end), AddItem(v, child.tree), fuel - 1);
    }
  }

  // ------------------------------------------------- what Parse yields is run

  lemma {:induction false} MoreFuel(b: bytes, i: nat, fuel: nat, more: nat)
    requires i <= |b| && Run(b, i, fuel).Some? && fuel <= more
    ensures Run(b, i, more) == Run(b, i, fuel)
    decreases fuel, 1
  {
    hide RunObject, RunArray, SkipWhile, ParseQuoted, ParseScalar;
    var k := SkipWhile(Space, b, i);
    if k < |b| && b[k] == LBRACE { MoreObjectFuel(b, k + 1, EMPTY.(isObj := true), fuel, more); }
    if k < |b| && b[k] == LBRACKET { MoreArrayFuel(b, k + 1, EMPTY.(isArr := true), fuel, more); }
  }

  // One turn of the object loop.
  lemma {:induction false} ObjectStep(b: bytes, i: nat, v: Tree, fuel: nat, key: Parsed, child: Parsed)
    requires i < |b| && b[i] != RBRACE && fuel > 0 && key.end <= |b| && child.end <= |b|
    requires Run(b, i, fuel - 1) == Some(key)
    requires Run(b, SkipWhile(SpaceOrColon, b, key.end), fuel - 1) == Some(child)
    ensures RunObject(b, i, v, fuel)
      == RunObject(b, SkipWhile(SpaceOrComma, b, child.end), AddMember(v, key.tree.s, child.tree), fuel - 1)
  {
    hide Run, SkipWhile, AddMember;
  }

  lemma {:induction false} ObjectEnds(b: bytes, i: nat, v: Tree, fuel: nat)
    requires i <= |b| && (i < |b| ==> b[i] == RBRACE)
    ensures RunObject(b, i, v, fuel) == Some(Parsed(v, if i < |b| then i + 1 else i))
  { }

  // Both its parses return if the loop does.
  lemma {:induction false} ObjectStepReturns(b: bytes, i: nat, v: Tree, fuel: nat)
    requires i < |b| && b[i] != RBRACE && RunObject(b, i, v, fuel).Some?
    ensures fuel > 0 && Run(b, i, fuel - 1).Some?
    ensures Run(b, SkipWhile(SpaceOrColon, b, Run(b, i, fuel - 1).value.end), fuel - 1).Some?
  {
    hide Run, SkipWhile, AddMember;
  }

  lemma {:induction false} MoreObjectFuel(b: bytes, i: nat, v: Tree, fuel: nat, more: nat)
    requires i <= |b| && RunObject(b, i, v, fuel).Some? && fuel <= more
    ensures RunObject(b, i, v, more) == RunObject(b, i, v, fuel)
    decreases fuel, 0
  {
    hide Run, RunObject, SkipWhile, AddMember;
    if i == |b| || b[i] == RBRACE {
      ObjectEnds(b, i, v, fuel);
      ObjectEnds(b, i, v, more);
    } else {
      ObjectStepReturns(b, i, v, fuel);
      MoreFuel(b, i, fuel - 1, more - 1);
      var key := Run(b, i, fuel - 1).value;
      var m := SkipWhile(SpaceOrColon, b, key.end);
      MoreFuel(b, m, fuel - 1, more - 1);
      var child := Run(b, m, fuel - 1).value;
      ObjectStep(b, i, v, fuel, key, child);
      ObjectStep(b, i, v, more, key, child);
      MoreObjectFuel(
        b, SkipWhile(SpaceOrComma, b, child.end), AddMember(v, key.tree.s, child.tree), fuel - 1, more - 1);
    }
  }

  lemma {:induction false} MoreArrayFuel(b: bytes, i: nat, v: Tree, fuel: nat, more: nat)
    requires i <= |b| && RunArray(b, i, v, fuel).Some? && fuel <= more
    ensures RunArray(b, i, v, more) == RunArray(b, i, v, fuel)
    decreases fuel, 0
  {
    hide Run, SkipWhile, AddItem;
    if i < |b| && b[i] != RBRACKET {
      MoreFuel(b, i, fuel - 1, more - 1);
      var child := Run(b, i, fuel - 1).value;
      MoreArrayFuel(b, SkipWhile(SpaceOrComma, b, child.end), AddItem(v, child.tree), fuel - 1, more - 1);
    }
  }

  function Max(x: nat, y: nat): nat { if x < y then y else x }

  lemma {:induction false} ParseIsRun(b: bytes, i: nat) returns (fuel: nat)
    requires i <= |b| && Parse(b, i).Some?
    ensures Run(b, i, fuel) == Parse(b, i)
    decreases |b| - i, 0
  {
    hide RunObject, RunArray, ObjectLoop, ArrayLoop, SkipWhile, ParseQuoted, ParseScalar;
    var k := SkipWhile(Space, b, i);
    fuel := 0;
    if k < |b| && b[k] == LBRACE { fuel := ObjectLoopIsRun(b, k + 1, EMPTY.(isObj := true)); }
    if k < |b| && b[k] == LBRACKET { fuel := ArrayLoopIsRun(b, k + 1, EMPTY.(isArr := true)); }
  }

  lemma {:induction false} ObjectLoopIsRun(b: bytes, i: nat, v: Tree) returns (fuel: nat)
    requires i <= |b| && ObjectLoop(b, i, v).Some?
    ensures RunObject(b, i, v, fuel) == ObjectLoop(b, i, v)
    decreases |b| - i, 2
  {
    hide Run, Parse, SkipWhile, AddMember, ObjectLoop;
    fuel := 0;
    if i == |b| || b[i] == RBRACE {
      ObjectStops(b, i, v);
    } else {
      EntryReturns(b, i, v);
      var f := ParseIsRun(b, i);
      var key := Parse(b, i).value;
      var m := SkipWhile(SpaceOrColon, b, key.end);
      var g := ParseIsRun(b, m);
      var child := Parse(b, m).value;
      var next := SkipWhile(SpaceOrComma, b, child.end);
      ObjectTurn(b, i, v, key, child, next);
      var h := ObjectLoopIsRun(b, next, AddMember(v, key.tree.s, child.tree));
      fuel := Max(f, Max(g, h));
      MoreFuel(b, i, f, fuel);
      MoreFuel(b, m, g, fuel);
      MoreObjectFuel(b, next, AddMember(v, key.tree.s, child.tree), h, fuel);
      fuel := fuel + 1;
    }
  }

  lemma {:induction false} ArrayLoopIsRun(b: bytes, i: nat, v: Tree) returns (fuel: nat)
    requires i <= |b| && ArrayLoop(b, i, v).Some?
    ensures RunArray(b, i, v, fuel) == ArrayLoop(b, i, v)
    decreases |b| - i, 2
  {
    hide Run, Parse, SkipWhile, AddItem, ArrayLoop;
    fuel := 0;
    if i == |b| || b[i] == RBRACKET {
      ArrayStops(b, i, v);
    } else {
      ElementReturns(b, i, v);
      var f := ParseIsRun(b, i);
      var child := Parse(b, i).value;
      var next := SkipWhile(SpaceOrComma, b, child.end);
      ArrayTurn(b, i, v, child, next);
      var h := ArrayLoopIsRun(b, next, AddItem(v, child.tree));
      fuel := Max(f, h);
      MoreFuel(b, i, f, fuel);
      MoreArrayFuel(b, next, AddItem(v, child.tree), h, fuel);
      fuel := fuel + 1;
    }
  }

  /**
    None is exactly not returning: no number of steps finishes the run, and a run
    that finishes yields what Parse says.
  */
  lemma {:induction false} ParseIsRunning(b: bytes)
    ensures Parse(b, 0).Some? <==> Returns(b)
    ensures forall fuel: nat :: Run(b, 0, fuel).Some? ==> Run(b, 0, fuel) == Parse(b, 0)
  {
    hide Run, Parse;
    if Parse(b, 0).Some? {
      var fuel := ParseIsRun(b, 0);
    }
    forall fuel: nat | Run(b, 0, fuel).Some? ensures Run(b, 0, fuel) == Parse(b, 0) { RunIsParse(b, 0, fuel); }
  }

  /** So on `[}` and `{]`, whatever follows, the parser never returns, however long it runs. */
  lemma {:induction false} MismatchedCloserNeverReturns(rest: bytes, fuel: nat)
    ensures Run([LBRACKET, RBRACE] + rest, 0, fuel) == None
    ensures Run([LBRACE, RBRACKET] + rest, 0, fuel) == None
  {
    hide Run, Parse;
    MismatchedCloserHangs(rest);
    ParseIsRunning([LBRACKET, RBRACE] + rest);
    ParseIsRunning([LBRACE, RBRACKET] + rest);
  }
}
