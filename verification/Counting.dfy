/** Counting the elements of a list that meet a condition. */
module Counting {
  function Count<T>(s: seq<T>, p: T -> bool): (n: nat)
    ensures n <= |s|
  {
    if s == [] then 0 else Count(s[..|s| - 1], p) + if p(s[|s| - 1]) then 1 else 0
  }

  lemma {:induction false} CountNext<T>(s: seq<T>, i: nat, p: T -> bool)
    requires i < |s|
    ensures Count(s[..i + 1], p) == Count(s[..i], p) + if p(s[i]) then 1 else 0
  {
    assert s[..i + 1][..i] == s[..i];
  }

  lemma {:induction false} CountConcat<T>(s: seq<T>, t: seq<T>, p: T -> bool)
    ensures Count(s + t, p) == Count(s, p) + Count(t, p)
    decreases |t|
  {
    if t == [] {
      assert s + t == s;
    } else {
      assert (s + t)[..|s + t| - 1] == s + t[..|t| - 1];
      CountConcat(s, t[..|t| - 1], p);
    }
  }

  lemma {:induction false} CountSame<T>(s: seq<T>, p: T -> bool, q: T -> bool)
    requires forall i :: 0 <= i < |s| ==> p(s[i]) == q(s[i])
    ensures Count(s, p) == Count(s, q)
    decreases |s|
  {
    if s != [] { CountSame(s[..|s| - 1], p, q); }
  }

  lemma {:induction false} Without<T>(s: seq<T>, i: nat)
    requires i < |s|
    ensures multiset(s) == multiset(s[..i] + s[i + 1..]) + multiset{s[i]}
  {
    assert s == s[..i] + [s[i]] + s[i + 1..];
  }

  lemma {:induction false} CountWithout<T>(s: seq<T>, i: nat, p: T -> bool)
    requires i < |s|
    ensures Count(s, p) == Count(s[..i] + s[i + 1..], p) + if p(s[i]) then 1 else 0
  {
    CountNext(s, i, p);
    CountConcat(s[..i + 1], s[i + 1..], p);
    CountConcat(s[..i], s[i + 1..], p);
    assert s == s[..i + 1] + s[i + 1..];
  }

  lemma {:induction false} Cancel<T>(a: multiset<T>, b: multiset<T>, c: multiset<T>)
    requires a + c == b + c
    ensures a == b
  {
    assert a == (a + c) - c;
    assert b == (b + c) - c;
  }

  /** A count does not depend on the order. */
  lemma {:induction false} CountPermutes<T>(s: seq<T>, t: seq<T>, p: T -> bool)
    requires multiset(s) == multiset(t)
    ensures Count(s, p) == Count(t, p)
    decreases |s|
  {
    assert |multiset(s)| == |s| && |multiset(t)| == |t|;
    if s != [] {
      var n := |s| - 1;
      assert s[n] in multiset(t);
      var i :| 0 <= i < |t| && t[i] == s[n];
      Without(t, i);
      Without(s, n);
      assert s[..n] + s[n + 1..] == s[..n];
      Cancel(multiset(s[..n]), multiset(t[..i] + t[i + 1..]), multiset{s[n]});
      CountWithout(t, i, p);
      CountPermutes(s[..n], t[..i] + t[i + 1..], p);
    }
  }

  // One element, two, and three that meet the condition.
  lemma {:induction false} CountOne<T>(s: seq<T>, p: T -> bool)
    ensures Count(s, p) >= 1 <==> exists i :: 0 <= i < |s| && p(s[i])
    decreases |s|
  {
    if s != [] { CountOne(s[..|s| - 1], p); }
  }

  lemma {:induction false} CountTwo<T>(s: seq<T>, p: T -> bool)
    ensures Count(s, p) >= 2 <==> exists i, j :: 0 <= i < j < |s| && p(s[i]) && p(s[j])
    decreases |s|
  {
    if s != [] {
      CountOne(s[..|s| - 1], p);
      CountTwo(s[..|s| - 1], p);
    }
  }

  lemma {:induction false} CountThree<T>(s: seq<T>, p: T -> bool)
    ensures Count(s, p) >= 3 <==> exists i, j, k :: 0 <= i < j < k < |s| && p(s[i]) && p(s[j]) && p(s[k])
    decreases |s|
  {
    if s != [] {
      CountTwo(s[..|s| - 1], p);
      CountThree(s[..|s| - 1], p);
    }
  }

  function SumBy<T>(s: seq<T>, f: T -> nat): nat {
    if s == [] then 0 else SumBy(s[..|s| - 1], f) + f(s[|s| - 1])
  }

  lemma {:induction false} SumNext<T>(s: seq<T>, i: nat, f: T -> nat)
    requires i < |s|
    ensures SumBy(s[..i + 1], f) == SumBy(s[..i], f) + f(s[i])
  {
    assert s[..i + 1][..i] == s[..i];
  }

  lemma {:induction false} SumConcat<T>(s: seq<T>, t: seq<T>, f: T -> nat)
    ensures SumBy(s + t, f) == SumBy(s, f) + SumBy(t, f)
    decreases |t|
  {
    if t == [] {
      assert s + t == s;
    } else {
      assert (s + t)[..|s + t| - 1] == s + t[..|t| - 1];
      SumConcat(s, t[..|t| - 1], f);
    }
  }

  lemma {:induction false} SumWithout<T>(s: seq<T>, i: nat, f: T -> nat)
    requires i < |s|
    ensures SumBy(s, f) == SumBy(s[..i] + s[i + 1..], f) + f(s[i])
  {
    SumNext(s, i, f);
    SumConcat(s[..i + 1], s[i + 1..], f);
    SumConcat(s[..i], s[i + 1..], f);
    assert s == s[..i + 1] + s[i + 1..];
  }

  /** A sum does not depend on the order. */
  lemma {:induction false} SumPermutes<T>(s: seq<T>, t: seq<T>, f: T -> nat)
    requires multiset(s) == multiset(t)
    ensures SumBy(s, f) == SumBy(t, f)
    decreases |s|
  {
    assert |multiset(s)| == |s| && |multiset(t)| == |t|;
    if s != [] {
      var n := |s| - 1;
      assert s[n] in multiset(t);
      var i :| 0 <= i < |t| && t[i] == s[n];
      Without(t, i);
      Without(s, n);
      assert s[..n] + s[n + 1..] == s[..n];
      Cancel(multiset(s[..n]), multiset(t[..i] + t[i + 1..]), multiset{s[n]});
      SumWithout(t, i, f);
      SumPermutes(s[..n], t[..i] + t[i + 1..], f);
    }
  }
}
