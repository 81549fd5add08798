/** String searches and ASCII case, as the analysis code uses them. */
module Text {
  predicate At(s: string, i: int, t: string) { 0 <= i <= |s| - |t| && s[i..i + |t|] == t }

  predicate Contains(s: string, t: string) { exists i :: 0 <= i <= |s| && At(s, i, t) }

  predicate StartsWith(s: string, t: string) { At(s, 0, t) }

  function LowerChar(c: char): char { if 'A' <= c <= 'Z' then (c as int + 32) as char else c }

  function Lower(s: string): (r: string)
    ensures |r| == |s| && forall i :: 0 <= i < |s| ==> r[i] == LowerChar(s[i])
  {
    if s == "" then "" else Lower(s[..|s| - 1]) + [LowerChar(s[|s| - 1])]
  }

  predicate SameText(a: string, b: string) { Lower(a) == Lower(b) }

  // ------------------------------------------------------ what these mean

  const UPPER := "ABCDEFGHIJKLMNOPQRSTUVWXYZ"
  const LOWER := "abcdefghijklmnopqrstuvwxyz"

  // The same character, or the same letter in the two cases.
  predicate SameLetter(a: char, b: char) { a == b || exists k :: 0 <= k < 26 && Letter(k, a, b) }

  // The two are letter `k` of the alphabet, one in each case.
  predicate Letter(k: nat, a: char, b: char)
    requires k < 26
  {
    (a == UPPER[k] && b == LOWER[k]) || (a == LOWER[k] && b == UPPER[k])
  }

  lemma {:induction false} AlphabetAt(k: nat)
    requires k < 26
    ensures UPPER[k] as int == 'A' as int + k && LOWER[k] as int == 'a' as int + k
  { }

  lemma {:induction false} LetterCodes(k: nat, a: char, b: char)
    requires k < 26
    ensures Letter(k, a, b) <==>
      || (a as int == 'A' as int + k && b as int == 'a' as int + k)
      || (a as int == 'a' as int + k && b as int == 'A' as int + k)
  {
    AlphabetAt(k);
  }

  lemma {:induction false} SameLetterMeans(a: char, b: char)
    ensures LowerChar(a) == LowerChar(b) <==> SameLetter(a, b)
  {
    hide Letter;
    if LowerChar(a) == LowerChar(b) && a != b {
      var k: nat := if 'A' <= a <= 'Z' then a as int - 'A' as int else b as int - 'A' as int;
      LetterCodes(k, a, b);
    }
    if k :| 0 <= k < 26 && Letter(k, a, b) {
      LetterCodes(k, a, b);
    }
  }

  /** Texts are the same when they are so letter by letter, in either case. */
  lemma {:induction false} SameTextMeans(a: string, b: string)
    ensures SameText(a, b) <==> |a| == |b| && forall i :: 0 <= i < |a| ==> SameLetter(a[i], b[i])
  {
    hide SameLetter, LowerChar;
    if |a| == |b| {
      forall i | 0 <= i < |a| ensures Lower(a)[i] == Lower(b)[i] <==> SameLetter(a[i], b[i]) {
        SameLetterMeans(a[i], b[i]);
      }
    } else {
      assert |Lower(a)| != |Lower(b)|;
    }
  }

  predicate NoUpper(s: string) { forall i :: 0 <= i < |s| ==> !('A' <= s[i] <= 'Z') }

  // Some part of the text is `t`, in any case.
  predicate Mentions(s: string, t: string) { exists i :: 0 <= i <= |s| && StandsAt(s, i, t) }

  predicate StandsAt(s: string, i: int, t: string) { 0 <= i <= |s| - |t| && SameText(s[i..i + |t|], t) }

  lemma {:induction false} LowerSlice(s: string, i: nat, n: nat)
    requires i + n <= |s|
    ensures Lower(s)[i..i + n] == Lower(s[i..i + n])
  { }

  lemma {:induction false} LowerOfLower(t: string)
    requires NoUpper(t)
    ensures Lower(t) == t
  { }

  /** A lower-case text stands in the lower-cased one exactly when the text mentions it. */
  lemma {:induction false} ContainsMeans(s: string, t: string)
    requires NoUpper(t)
    ensures Contains(Lower(s), t) <==> Mentions(s, t)
  {
    hide Lower, NoUpper;
    LowerOfLower(t);
    if Contains(Lower(s), t) {
      var i :| 0 <= i <= |s| && At(Lower(s), i, t);
      LowerSlice(s, i, |t|);
      assert StandsAt(s, i, t);
    }
    if Mentions(s, t) {
      var i :| 0 <= i <= |s| && StandsAt(s, i, t);
      LowerSlice(s, i, |t|);
      assert At(Lower(s), i, t);
    }
  }
}
