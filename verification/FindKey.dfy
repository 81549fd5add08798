/** JSON::find_key and json_get_str of utils.cpp. */
module FindKey {
  import opened Bytes
  import opened Utf8
  import opened LenientJson
  import opened LenientJsonProof

  function Find(v: Tree, key: bytes): bytes
    decreases v, 1, 0
  {
    if v.isObj && key in v.o then v.o[key].s
    else
      var below := if v.isObj then FindInMembers(v, key, 0) else [];
      if below != [] then below
      else if v.isArr then FindInItems(v, key, 0)
      else []
  }

  // The loop over v.order, from member k on.
  function FindInMembers(v: Tree, key: bytes, k: nat): bytes
    requires k <= |v.order|
    decreases v, 0, |v.order| - k
  {
    if k == |v.order| then []
    else if v.order[k] !in v.o then FindInMembers(v, key, k + 1)
    else
      var r := Find(v.o[v.order[k]], key);
      if r != [] then r else FindInMembers(v, key, k + 1)
  }

  // The loop over v.a, from item k on.
  function FindInItems(v: Tree, key: bytes, k: nat): bytes
    requires k <= |v.a|
    decreases v, 0, |v.a| - k
  {
    if k == |v.a| then []
    else
      var r := Find(v.a[k], key);
      if r != [] then r else FindInItems(v, key, k + 1)
  }

  // All the strings the tree gives `key`, in document order: an object that
  // has the key answers by itself, and hides what lies below it.
  function Hits(v: Tree, key: bytes): seq<bytes>
    decreases v, 1, 0
  {
    if v.isObj && key in v.o then [v.o[key].s]
    else (if v.isObj then MemberHits(v, key, 0) else []) + (if v.isArr then ItemHits(v, key, 0) else [])
  }

  function MemberHits(v: Tree, key: bytes, k: nat): seq<bytes>
    requires k <= |v.order|
    decreases v, 0, |v.order| - k
  {
    if k == |v.order| then []
    else (if v.order[k] in v.o then Hits(v.o[v.order[k]], key) else []) + MemberHits(v, key, k + 1)
  }

  function ItemHits(v: Tree, key: bytes, k: nat): seq<bytes>
    requires k <= |v.a|
    decreases v, 0, |v.a| - k
  {
    if k == |v.a| then [] else Hits(v.a[k], key) + ItemHits(v, key, k + 1)
  }

  function FirstNonEmpty(hits: seq<bytes>): bytes {
    if hits == [] then [] else if hits[0] != [] then hits[0] else FirstNonEmpty(hits[1..])
  }

  lemma {:induction false} FirstOfConcat(x: seq<bytes>, y: seq<bytes>)
    ensures FirstNonEmpty(x + y) == if FirstNonEmpty(x) != [] then FirstNonEmpty(x) else FirstNonEmpty(y)
  {
    if x == [] {
      assert x + y == y;
    } else {
      assert (x + y)[0] == x[0] && (x + y)[1..] == x[1..] + y;
      FirstOfConcat(x[1..], y);
    }
  }

  /** The search returns the first non-empty hit of the whole tree, and "" when there is none. */
  lemma {:induction false} FindIsFirstHit(v: Tree, key: bytes)
    ensures Find(v, key) == FirstNonEmpty(Hits(v, key))
    decreases v, 1, 0
  {
    if !(v.isObj && key in v.o) {
      var x := if v.isObj then MemberHits(v, key, 0) else [];
      var y := if v.isArr then ItemHits(v, key, 0) else [];
      if v.isObj { MembersFirstHit(v, key, 0); }
      if v.isArr { ItemsFirstHit(v, key, 0); }
      FirstOfConcat(x, y);
    }
  }

  lemma {:induction false} MembersFirstHit(v: Tree, key: bytes, k: nat)
    requires k <= |v.order|
    ensures FindInMembers(v, key, k) == FirstNonEmpty(MemberHits(v, key, k))
    decreases v, 0, |v.order| - k
  {
    if k < |v.order| {
      MembersFirstHit(v, key, k + 1);
      var x := if v.order[k] in v.o then Hits(v.o[v.order[k]], key) else [];
      if v.order[k] in v.o { FindIsFirstHit(v.o[v.order[k]], key); }
      FirstOfConcat(x, MemberHits(v, key, k + 1));
    }
  }

  lemma {:induction false} ItemsFirstHit(v: Tree, key: bytes, k: nat)
    requires k <= |v.a|
    ensures FindInItems(v, key, k) == FirstNonEmpty(ItemHits(v, key, k))
    decreases v, 0, |v.a| - k
  {
    if k < |v.a| {
      ItemsFirstHit(v, key, k + 1);
      FindIsFirstHit(v.a[k], key);
      FirstOfConcat(Hits(v.a[k], key), ItemHits(v, key, k + 1));
    }
  }

  lemma {:induction false} FindUtf8(v: Tree, key: bytes)
    requires Utf8Tree(v)
    ensures WellFormed(Find(v, key))
    decreases v, 1, 0
  {
    DecodeEmpty();
    if v.isObj && !(key in v.o) { MembersUtf8(v, key, 0); }
    if v.isArr && !(v.isObj && key in v.o) { ItemsUtf8(v, key, 0); }
    if v.isObj && key in v.o { assert Utf8Tree(v.o[key]); }
  }

  lemma {:induction false} MembersUtf8(v: Tree, key: bytes, k: nat)
    requires Utf8Tree(v) && k <= |v.order|
    ensures WellFormed(FindInMembers(v, key, k))
    decreases v, 0, |v.order| - k
  {
    DecodeEmpty();
    if k < |v.order| {
      MembersUtf8(v, key, k + 1);
      if v.order[k] in v.o { FindUtf8(v.o[v.order[k]], key); }
    }
  }

  lemma {:induction false} ItemsUtf8(v: Tree, key: bytes, k: nat)
    requires Utf8Tree(v) && k <= |v.a|
    ensures WellFormed(FindInItems(v, key, k))
    decreases v, 0, |v.a| - k
  {
    DecodeEmpty();
    if k < |v.a| {
      ItemsUtf8(v, key, k + 1);
      FindUtf8(v.a[k], key);
    }
  }

  /** json_get_str, on the bodies on which the parser returns. */
  method JsonGetStr(body: bytes, key: bytes) returns (r: bytes)
    requires Parse(body, 0).Some?
    ensures r == FirstNonEmpty(Hits(Parse(body, 0).value.tree, key))
    ensures WellFormed(body) ==> WellFormed(r)
  {
    var v, _ := ParseTree(body, 0);
    r := Find(v, key);
    FindIsFirstHit(v, key);
    if WellFormed(body) {
      BodyUtf8(body);
      FindUtf8(v, key);
    }
  }
}
