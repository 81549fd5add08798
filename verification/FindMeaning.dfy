/** json_get_str of utils.cpp on a JSON text: what it looks for, said of the text. */
module FindMeaning {
  import opened Bytes
  import opened FindKey
  import opened JsonAgreement
  import opened JsonGrammar
  import opened JsonMeaning
  import opened LenientJson
  import opened Unescape

  // The text of a value that is asked for: a string unescaped, another scalar
  // as it stands, and nothing for an object or an array.
  function TextOf(v: Value): bytes {
    match v
    case Str(cs) => Unescaped(RenderChars(cs))
    case Num(n) => RenderNumber(n)
    case True => TRUE
    case False => FALSE
    case Null => NULL
    case _ => []
  }

  // The keys of the first `n` members, each where it occurs first.
  ghost function FirstKeys(ms: seq<Member>, n: nat): (keys: seq<bytes>)
    requires n <= |ms|
    ensures forall k :: k in keys ==> HasKey(ms, n, k)
  {
    if n == 0 then []
    else FirstKeys(ms, n - 1) + if HasKey(ms, n - 1, KeyOf(ms[n - 1])) then [] else [KeyOf(ms[n - 1])]
  }

  ghost function LastIndex(ms: seq<Member>, n: nat, k: bytes): (j: nat)
    requires n <= |ms| && HasKey(ms, n, k)
    ensures j < n && KeyOf(ms[j]) == k
  {
    if KeyOf(ms[n - 1]) == k then n - 1 else LastIndex(ms, n - 1, k)
  }

  lemma {:induction false} LastIndexIsLast(ms: seq<Member>, n: nat, k: bytes)
    requires n <= |ms| && HasKey(ms, n, k)
    ensures LastWithKey(ms, n, LastIndex(ms, n, k))
  {
    hide KeyOf;
    if KeyOf(ms[n - 1]) != k { LastIndexIsLast(ms, n - 1, k); }
  }

  /**
    The texts that a JSON value has for `key`, in document order. An object with
    the key has one, that of the last such member, and hides what lies below; any
    other has those of its members, one for each key, where the key occurs first.
  */
  ghost function Answers(v: Value, key: bytes): seq<bytes>
    decreases v, 0, 0
  {
    match v
    case Obj(pad, ms) =>
      if pad != [] then if key == [] then [[]] else []
      else if HasKey(ms, |ms|, key) then [TextOf(ms[LastIndex(ms, |ms|, key)].item.value)]
      else KeyAnswers(ms, FirstKeys(ms, |ms|), key)
    case Arr(pad, its) => if pad != [] then [] else ItemAnswers(its, key)
    case _ => []
  }

  ghost function KeyAnswers(ms: seq<Member>, keys: seq<bytes>, key: bytes): seq<bytes>
    requires forall k :: k in keys ==> HasKey(ms, |ms|, k)
    decreases ms, 1, |keys|
  {
    if keys == [] then []
    else Answers(ms[LastIndex(ms, |ms|, keys[0])].item.value, key) + KeyAnswers(ms, keys[1..], key)
  }

  ghost function ItemAnswers(its: seq<Item>, key: bytes): seq<bytes>
    decreases its, 1, 0
  {
    if its == [] then [] else Answers(its[0].value, key) + ItemAnswers(its[1..], key)
  }

  lemma {:induction false} OrderIs(t: Tree, ms: seq<Member>, n: nat)
    requires n <= |ms| && Lists(t, ms, n) && t.order == FirstKeys(ms, n)
    ensures AddMembers(t, ms[n..]).order == FirstKeys(ms, |ms|)
    decreases |ms| - n
  {
    hide TreeOf, KeyOf, HasKey, HoldsLast, KeysInOrder;
    if n < |ms| {
      var u := AddMember(t, KeyOf(ms[n]), TreeOf(ms[n].item.value));
      OneMoreMember(t, ms, n);
      OrderIs(u, ms, n + 1);
      assert ms[n..][0] == ms[n] && ms[n..][1..] == ms[n + 1..];
      NextMemberAdds(t, ms, n);
    }
  }

  lemma {:induction false} NextMemberAdds(t: Tree, ms: seq<Member>, n: nat)
    requires n < |ms|
    ensures AddMembers(t, ms[n..]) == AddMembers(AddMember(t, KeyOf(ms[n]), TreeOf(ms[n].item.value)), ms[n + 1..])
  {
    hide TreeOf, AddMember;
    assert ms[n..][0] == ms[n] && ms[n..][1..] == ms[n + 1..];
  }

  lemma {:induction false} TextIs(v: Value)
    ensures TreeOf(v).s == TextOf(v)
  {
    match v
    case Arr(pad, its) => if pad == [] { ItemsAt(ARRAY, its); }
    case Obj(pad, ms) =>
      if pad == [] {
        assert ms[0..] == ms;
        NothingListed(ms);
        MembersList(OBJECT, ms, 0);
      }
    case _ =>
  }

  lemma {:induction false} NothingListed(ms: seq<Member>)
    ensures Lists(OBJECT, ms, 0) && OBJECT.order == FirstKeys(ms, 0)
  { }

  /** What the search finds in the tree of a value is what the value has for the key. */
  lemma {:induction false} HitsAre(v: Value, key: bytes)
    ensures Hits(TreeOf(v), key) == Answers(v, key)
    decreases v, 0, 0
  {
    match v
    case Obj(pad, ms) =>
      if pad != [] { PaddedHits(key); } else { ObjectHits(ms, key); }
    case Arr(pad, its) =>
      if pad != [] { PaddedHits(key); } else { ArrayHits(its, key); }
    case _ =>
  }

  lemma {:induction false} PaddedHits(key: bytes)
    ensures Hits(AddMember(OBJECT, [], EMPTY), key) == if key == [] then [[]] else []
    ensures Hits(AddItem(ARRAY, EMPTY), key) == []
  {
    var t := AddMember(OBJECT, [], EMPTY);
    var u := AddItem(ARRAY, EMPTY);
    assert Hits(EMPTY, key) == [];
    assert t.order == [[]] && MemberHits(t, key, 1) == [];
    assert key != [] ==> MemberHits(t, key, 0) == [];
    assert u.a == [EMPTY] && ItemHits(u, key, 1) == [] && ItemHits(u, key, 0) == [];
  }

  lemma {:induction false} ObjectHits(ms: seq<Member>, key: bytes)
    ensures Hits(AddMembers(OBJECT, ms), key) == Answers(Obj([], ms), key)
    decreases ms, 2, 0
  {
    hide TreeOf, KeyOf, AddMembers, HasKey, KeysInOrder, MemberHits, FirstKeys, LastWithKey;
    var t := AddMembers(OBJECT, ms);
    assert ms[0..] == ms;
    NothingListed(ms);
    MembersList(OBJECT, ms, 0);
    OrderIs(OBJECT, ms, 0);
    if HasKey(ms, |ms|, key) {
      LastIndexIsLast(ms, |ms|, key);
      TextIs(ms[LastIndex(ms, |ms|, key)].item.value);
    } else {
      MembersHit(t, ms, 0, key);
      assert t.order[0..] == t.order;
    }
  }

  lemma {:induction false} MembersHit(t: Tree, ms: seq<Member>, k: nat, key: bytes)
    requires Lists(t, ms, |ms|) && k <= |t.order|
    requires forall l :: l in t.order ==> HasKey(ms, |ms|, l)
    ensures MemberHits(t, key, k) == KeyAnswers(ms, t.order[k..], key)
    decreases ms, 1, |t.order| - k
  {
    hide TreeOf, KeyOf, HasKey, KeysInOrder, Hits, Answers, LastWithKey;
    if k < |t.order| {
      var l := t.order[k];
      assert l in t.order && t.order[k..][0] == l && t.order[k..][1..] == t.order[k + 1..];
      LastIndexIsLast(ms, |ms|, l);
      HitsAre(ms[LastIndex(ms, |ms|, l)].item.value, key);
      MembersHit(t, ms, k + 1, key);
    }
  }

  lemma {:induction false} ArrayHits(its: seq<Item>, key: bytes)
    ensures Hits(AddItems(ARRAY, its), key) == Answers(Arr([], its), key)
    decreases its, 2, 0
  {
    hide TreeOf, AddItems, ItemHits, ItemAnswers;
    ItemsAt(ARRAY, its);
    ItemsHit(AddItems(ARRAY, its), its, 0, key);
    assert its[0..] == its;
  }

  lemma {:induction false} ItemsHit(t: Tree, its: seq<Item>, k: nat, key: bytes)
    requires |t.a| == |its| && k <= |its| && forall i :: 0 <= i < |its| ==> t.a[i] == TreeOf(its[i].value)
    ensures ItemHits(t, key, k) == ItemAnswers(its[k..], key)
    decreases its, 1, |its| - k
  {
    hide TreeOf, Hits, Answers;
    if k < |its| {
      assert its[k..][0] == its[k] && its[k..][1..] == its[k + 1..];
      HitsAre(its[k].value, key);
      ItemsHit(t, its, k + 1, key);
    }
  }

  /**
    On a JSON text with anything blank around it, json_get_str returns the first
    text for the key that is not empty, in document order.
  */
  lemma {:induction false} GetStrMeans(before: bytes, v: Value, after: bytes, key: bytes)
    requires Blank(before) && Valid(v) && Blank(after)
    ensures var r := Parse(before + (Render(v) + after), 0);
      r.Some? && Find(r.value.tree, key) == FirstNonEmpty(Answers(v, key))
  {
    hide *;
    DocumentTree(before, v, after);
    FindIsFirstHit(TreeOf(v), key);
    HitsAre(v, key);
  }
}
