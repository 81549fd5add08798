/**
  What the tree builder of utils.cpp makes of a JSON text, said of the tree and
  the text by index: the items of an array in order, the last of the members of
  an object that share a key, and the keys in order of first occurrence.
*/
module JsonMeaning {
  import opened Bytes
  import opened JsonAgreement
  import opened JsonGrammar
  import opened LenientJson
  import opened Unescape

  function KeyOf(m: Member): bytes { Unescaped(RenderChars(m.key)) }

  // Member `j` is the last of the first `n` with its key.
  predicate LastWithKey(ms: seq<Member>, n: nat, j: nat)
    requires j < n <= |ms|
  {
    forall i :: j < i < n ==> KeyOf(ms[i]) != KeyOf(ms[j])
  }

  ghost predicate HasKey(ms: seq<Member>, n: nat, k: bytes)
    requires n <= |ms|
  {
    exists j :: 0 <= j < n && KeyOf(ms[j]) == k
  }

  // Key `a` occurs, and `b` does not occur before it or with it.
  ghost predicate OccursBefore(ms: seq<Member>, n: nat, a: bytes, b: bytes)
    requires n <= |ms|
  {
    exists j :: 0 <= j < n && KeyOf(ms[j]) == a && forall i :: 0 <= i <= j ==> KeyOf(ms[i]) != b
  }

  // The keys of the first `n` members, in order of first occurrence.
  ghost predicate KeysInOrder(order: seq<bytes>, ms: seq<Member>, n: nat)
    requires n <= |ms|
  {
    && (forall k :: k in order <==> HasKey(ms, n, k))
    && forall p, q :: 0 <= p < q < |order| ==> OccursBefore(ms, n, order[p], order[q])
  }

  predicate Childless(t: Tree) { t.o == map[] && t.order == [] && t.a == [] && !t.isObj && !t.isArr }

  /** The tree is what the value stands for. Brackets around blanks alone stand for one empty item, or one empty key. */
  ghost predicate Denotes(t: Tree, v: Value)
    decreases v
  {
    match v
    case Str(cs) => t.s == Unescaped(RenderChars(cs)) && Childless(t)
    case Num(n) => t.s == RenderNumber(n) && Childless(t)
    case True => t.s == TRUE && Childless(t)
    case False => t.s == FALSE && Childless(t)
    case Null => t.s == NULL && Childless(t)
    case Arr(pad, its) =>
      && t.isArr && !t.isObj && t.s == [] && t.o == map[] && t.order == []
      && if pad != [] then |t.a| == 1 && t.a[0].s == [] && Childless(t.a[0])
         else |t.a| == |its| && forall i :: 0 <= i < |its| ==> Denotes(t.a[i], its[i].value)
    case Obj(pad, ms) =>
      && t.isObj && !t.isArr && t.s == [] && t.a == []
      && if pad != [] then t.order == [[]] && t.o.Keys == {[]} && t.o[[]].s == [] && Childless(t.o[[]])
         else
           && KeysInOrder(t.order, ms, |ms|)
           && (forall k :: k in t.o <==> HasKey(ms, |ms|, k))
           && forall j :: 0 <= j < |ms| && LastWithKey(ms, |ms|, j) ==>
                KeyOf(ms[j]) in t.o && Denotes(t.o[KeyOf(ms[j])], ms[j].item.value)
  }

  lemma {:induction false} ItemsAt(v: Tree, its: seq<Item>)
    ensures var t := AddItems(v, its);
      && t == v.(a := t.a) && |t.a| == |v.a| + |its|
      && (forall i :: 0 <= i < |v.a| ==> t.a[i] == v.a[i])
      && forall i :: 0 <= i < |its| ==> t.a[|v.a| + i] == TreeOf(its[i].value)
    decreases its
  {
    hide TreeOf;
    if its != [] {
      var w := AddItem(v, TreeOf(its[0].value));
      ItemsAt(w, its[1..]);
      forall i | 0 <= i < |its| ensures AddItems(v, its).a[|v.a| + i] == TreeOf(its[i].value) {
        if i > 0 { assert its[1..][i - 1] == its[i]; }
      }
    }
  }

  // The object that the first `n` members make.
  ghost predicate Lists(t: Tree, ms: seq<Member>, n: nat)
    requires n <= |ms|
  {
    && t == OBJECT.(o := t.o, order := t.order)
    && KeysInOrder(t.order, ms, n)
    && (forall k :: k in t.o <==> HasKey(ms, n, k))
    && HoldsLast(t.o, ms, n)
  }

  lemma {:induction false} HasKeyNext(ms: seq<Member>, n: nat)
    requires n < |ms|
    ensures forall k :: HasKey(ms, n + 1, k) <==> HasKey(ms, n, k) || k == KeyOf(ms[n])
  {
    hide KeyOf;
    forall k ensures HasKey(ms, n + 1, k) <==> HasKey(ms, n, k) || k == KeyOf(ms[n]) {
      if HasKey(ms, n, k) {
        var j :| 0 <= j < n && KeyOf(ms[j]) == k;
      }
      assert k == KeyOf(ms[n]) ==> HasKey(ms, n + 1, k);
    }
  }

  lemma {:induction false} OccursNext(ms: seq<Member>, n: nat, a: bytes, b: bytes)
    requires n < |ms|
    ensures OccursBefore(ms, n, a, b) ==> OccursBefore(ms, n + 1, a, b)
    ensures HasKey(ms, n, a) && !HasKey(ms, n, KeyOf(ms[n])) ==> OccursBefore(ms, n + 1, a, KeyOf(ms[n]))
  {
    hide KeyOf;
  }

  lemma {:induction false} OneMoreKey(order: seq<bytes>, ms: seq<Member>, n: nat)
    requires n < |ms| && KeysInOrder(order, ms, n)
    ensures KeysInOrder(if HasKey(ms, n, KeyOf(ms[n])) then order else order + [KeyOf(ms[n])], ms, n + 1)
  {
    hide KeyOf, HasKey, OccursBefore;
    var k := KeyOf(ms[n]);
    var more := if HasKey(ms, n, k) then order else order + [k];
    HasKeyNext(ms, n);
    assert forall l :: l in more <==> l in order || l == k;
    forall p, q | 0 <= p < q < |more| ensures OccursBefore(ms, n + 1, more[p], more[q]) {
      assert more[p] == order[p] && order[p] in order;
      OccursNext(ms, n, more[p], more[q]);
    }
  }

  // The members that are last with their keys, one member later.
  ghost predicate HoldsLast(o: map<bytes, Tree>, ms: seq<Member>, n: nat)
    requires n <= |ms|
  {
    forall j :: 0 <= j < n && LastWithKey(ms, n, j) ==>
      KeyOf(ms[j]) in o && o[KeyOf(ms[j])] == TreeOf(ms[j].item.value)
  }

  lemma {:induction false} OneMoreLast(o: map<bytes, Tree>, ms: seq<Member>, n: nat)
    requires n < |ms| && HoldsLast(o, ms, n)
    ensures HoldsLast(o[KeyOf(ms[n]) := TreeOf(ms[n].item.value)], ms, n + 1)
  {
    hide KeyOf, TreeOf;
    var o' := o[KeyOf(ms[n]) := TreeOf(ms[n].item.value)];
    forall j | 0 <= j < n + 1 && LastWithKey(ms, n + 1, j)
      ensures KeyOf(ms[j]) in o' && o'[KeyOf(ms[j])] == TreeOf(ms[j].item.value)
    {
      if j < n {
        assert KeyOf(ms[n]) != KeyOf(ms[j]);
        assert LastWithKey(ms, n, j);
      }
    }
  }

  lemma {:induction false} OneMoreMember(t: Tree, ms: seq<Member>, n: nat)
    requires n < |ms| && Lists(t, ms, n)
    ensures Lists(AddMember(t, KeyOf(ms[n]), TreeOf(ms[n].item.value)), ms, n + 1)
  {
    hide KeyOf, TreeOf, KeysInOrder, HasKey, HoldsLast;
    OneMoreKey(t.order, ms, n);
    HasKeyNext(ms, n);
    OneMoreLast(t.o, ms, n);
  }

  lemma {:induction false} MembersList(t: Tree, ms: seq<Member>, n: nat)
    requires n <= |ms| && Lists(t, ms, n)
    ensures Lists(AddMembers(t, ms[n..]), ms, |ms|)
    decreases |ms| - n
  {
    hide Lists, TreeOf, AddMember;
    if n < |ms| {
      OneMoreMember(t, ms, n);
      MembersList(AddMember(t, KeyOf(ms[n]), TreeOf(ms[n].item.value)), ms, n + 1);
      assert ms[n..][0] == ms[n] && ms[n..][1..] == ms[n + 1..];
    }
  }

  lemma {:induction false} TreeDenotes(v: Value)
    ensures Denotes(TreeOf(v), v)
    decreases v
  {
    match v
    case Arr(pad, its) =>
      if pad == [] { ArrayDenotes(its); }
    case Obj(pad, ms) =>
      if pad == [] { ObjectDenotes(ms); }
    case _ =>
  }

  lemma {:induction false} ArrayDenotes(its: seq<Item>)
    ensures Denotes(AddItems(ARRAY, its), Arr([], its))
    decreases its
  {
    hide AddItems, TreeOf;
    ItemsAt(ARRAY, its);
    forall i | 0 <= i < |its| ensures Denotes(TreeOf(its[i].value), its[i].value) { TreeDenotes(its[i].value); }
  }

  lemma {:induction false} ObjectDenotes(ms: seq<Member>)
    ensures Denotes(AddMembers(OBJECT, ms), Obj([], ms))
    decreases ms
  {
    hide AddMembers, TreeOf, KeyOf;
    assert ms[0..] == ms;
    MembersList(OBJECT, ms, 0);
    forall j | 0 <= j < |ms| ensures Denotes(TreeOf(ms[j].item.value), ms[j].item.value) {
      TreeDenotes(ms[j].item.value);
    }
  }

  /** On every JSON text the tree builder stops after the value, with a tree that denotes it. */
  lemma {:induction false} DocumentMeans(before: bytes, v: Value, after: bytes)
    requires Blank(before) && Valid(v) && Blank(after)
    ensures var r := Parse(before + (Render(v) + after), 0);
      r.Some? && r.value.end == |before| + |Render(v)| && Denotes(r.value.tree, v)
  {
    hide *;
    DocumentTree(before, v, after);
    TreeDenotes(v);
  }
}
