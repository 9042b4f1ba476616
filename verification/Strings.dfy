/**
 Searching in strings, by position.
 */
module Strings {

  lemma Regroup<T>(x: seq<T>, y: seq<T>, z: seq<T>)
    ensures x + y + z == x + (y + z)
  {
  }

  lemma TwoParts<T>(s: seq<T>, i: nat)
    requires i <= |s|
    ensures s == s[..i] + s[i..]
  {
  }

  /** The string x is found at position i. */
  predicate At(s: string, i: nat, x: string) {
    i + |x| <= |s| && forall k :: 0 <= k < |x| ==> s[i + k] == x[k]
  }

  lemma AtSplit(s: string, i: nat, x: string, y: string)
    requires At(s, i, x + y)
    ensures At(s, i, x) && At(s, i + |x|, y)
  {
    forall k | 0 <= k < |x|
      ensures s[i + k] == x[k]
    {
      assert (x + y)[k] == x[k];
    }
    forall k | 0 <= k < |y|
      ensures s[i + |x| + k] == y[k]
    {
      assert (x + y)[|x| + k] == y[k];
    }
  }

  lemma AtWhole(x: string)
    ensures At(x, 0, x)
  {
  }

  /** The first place at or after i that holds c, or the end. */
  function Find(s: string, c: char, i: nat): (j: nat)
    requires i <= |s|
    ensures i <= j <= |s| && (j < |s| ==> s[j] == c)
    ensures forall k :: i <= k < j ==> s[k] != c
    decreases |s| - i
  {
    if i == |s| || s[i] == c then i else Find(s, c, i + 1)
  }

  lemma FindIs(s: string, c: char, i: nat, j: nat)
    requires i <= j <= |s| && (j < |s| ==> s[j] == c)
    requires forall k :: i <= k < j ==> s[k] != c
    ensures Find(s, c, i) == j
  {
  }

  /** The first place at or after i where x is found, or the end. */
  function FindText(s: string, x: string, i: nat): (j: nat)
    requires i <= |s| && x != ""
    ensures i <= j <= |s|
    decreases |s| - i
  {
    if i == |s| || At(s, i, x) then i else FindText(s, x, i + 1)
  }

  /** What it finds is the first. */
  lemma {:induction false} FoundText(s: string, x: string, i: nat)
    requires i <= |s| && x != ""
    ensures var j := FindText(s, x, i);
      (j < |s| ==> At(s, j, x)) && forall k :: i <= k < j ==> !At(s, k, x)
    decreases |s| - i
  {
    if i < |s| && !At(s, i, x) {
      FoundText(s, x, i + 1);
    }
  }

  lemma FindTextIs(s: string, x: string, i: nat, j: nat)
    requires i <= j <= |s| && x != "" && (j < |s| ==> At(s, j, x))
    requires forall k :: i <= k < j ==> !At(s, k, x)
    ensures FindText(s, x, i) == j
  {
    FoundText(s, x, i);
  }
}
