/**
 * The few java.lang.String operations the modelled code relies on, over
 * strings as sequences of characters, and the Option type used for absent
 * (null) values.
 */
module Strings {

  datatype Option<T> = None | Some(value: T)

  /** p occurs in s starting at index i. */
  predicate OccursAt(s: string, p: string, i: int)
  {
    0 <= i && i + |p| <= |s| && s[i..i + |p|] == p
  }

  /** String.startsWith */
  predicate StartsWith(s: string, p: string)
  {
    |p| <= |s| && s[..|p|] == p
  }

  /** String.endsWith */
  predicate EndsWith(s: string, p: string)
  {
    |p| <= |s| && s[|s| - |p|..] == p
  }

  /** String.contains */
  predicate Contains(s: string, p: string)
  {
    exists i :: 0 <= i <= |s| && OccursAt(s, p, i)
  }

  /** String.indexOf: the first index at which p occurs, or -1. */
  function IndexOf(s: string, p: string): (r: int)
    ensures -1 <= r <= |s|
    ensures r == -1 <==> !Contains(s, p)
    ensures r >= 0 ==> OccursAt(s, p, r) && forall j :: 0 <= j < r ==> !OccursAt(s, p, j)
  {
    IndexFrom(s, p, 0)
  }

  /** The first index at or after k at which p occurs, or -1. */
  function IndexFrom(s: string, p: string, k: nat): (r: int)
    requires k <= |s| + 1
    ensures r == -1 || k <= r <= |s|
    ensures r == -1 <==> forall j :: k <= j ==> !OccursAt(s, p, j)
    ensures r >= 0 ==> OccursAt(s, p, r) && forall j :: k <= j < r ==> !OccursAt(s, p, j)
    decreases |s| + 1 - k
  {
    if k + |p| > |s| then -1
    else if s[k..k + |p|] == p then assert OccursAt(s, p, k); k
    else IndexFrom(s, p, k + 1)
  }

  /** A suffix is an occurrence, so a string that ends with p contains p. */
  lemma EndsWithContains(s: string, p: string)
    requires EndsWith(s, p)
    ensures Contains(s, p) && IndexOf(s, p) <= |s| - |p|
  {
    assert OccursAt(s, p, |s| - |p|);
  }

  /** Removing a prefix and putting it back gives the string back. */
  lemma StartsWithSplit(s: string, p: string)
    requires StartsWith(s, p)
    ensures p + s[|p|..] == s
  {
  }

  /** The string with the first occurrence of p and everything after it removed. */
  function CutAtFirst(s: string, p: string): (r: string)
    requires Contains(s, p)
    ensures StartsWith(s, r + p)
    ensures !Contains(r, p) || |p| == 0
  {
    var i := IndexOf(s, p);
    assert s[..i + |p|] == s[..i] + p by {
      assert s[i..i + |p|] == p;
    }
    NoEarlierOccurrence(s, p, i);
    s[..i]
  }

  /** A prefix of s that ends before the first occurrence of p does not contain p. */
  lemma NoEarlierOccurrence(s: string, p: string, i: int)
    requires 0 <= i <= |s|
    requires forall j :: 0 <= j < i ==> !OccursAt(s, p, j)
    ensures !Contains(s[..i], p) || |p| == 0
  {
    if |p| > 0 && Contains(s[..i], p) {
      var j :| 0 <= j <= i && OccursAt(s[..i], p, j);
      assert s[..i][j..j + |p|] == s[j..j + |p|];
      assert OccursAt(s, p, j);
    }
  }
}
