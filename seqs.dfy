/** Facts about sequences that do not depend on what they hold. Proving
    them here, away from any particular element type, keeps them cheap to
    use next to heavy terms. */
module Seqs {

  lemma SplitFirst<T>(s: seq<T>)
    requires s != []
    ensures [s[0]] + s[1..] == s
  {
  }

  lemma SplitAt<T>(s: seq<T>, k: nat)
    requires k < |s|
    ensures s[..k] + ([s[k]] + s[k + 1..]) == s
  {
  }

  lemma SplitLast<T>(s: seq<T>)
    requires s != []
    ensures s[..|s| - 1] + [s[|s| - 1]] == s
  {
  }

  lemma AppendAssoc<T>(a: seq<T>, b: seq<T>, c: seq<T>)
    ensures a + b + c == a + (b + c)
  {
  }

  lemma UpdateTwice<T>(s: seq<T>, k: nat, a: T, b: T)
    requires k < |s|
    ensures s[k := a][k := b] == s[k := b]
  {
  }

  lemma TakeTake<T>(s: seq<T>, i: nat, j: nat)
    requires i <= j <= |s|
    ensures s[..j][..i] == s[..i]
  {
  }

  lemma AppendAtRight<T>(a: seq<T>, b: seq<T>, t: nat)
    requires t < |b|
    ensures |a| + t < |a + b| && (a + b)[|a| + t] == b[t]
  {
  }

  lemma AppendAtLeft<T>(a: seq<T>, b: seq<T>, x: nat)
    requires x < |a|
    ensures (a + b)[x] == a[x]
  {
  }

  lemma TakeSnoc<T>(s: seq<T>, j: nat)
    requires j < |s|
    ensures s[..j + 1] == s[..j] + [s[j]]
  {
  }

  /** The element at the seam of `a + s[j..]`. */
  lemma SeamAt<T>(a: seq<T>, s: seq<T>, j: nat)
    requires j < |s|
    ensures |a| < |a + s[j..]| && (a + s[j..])[|a|] == s[j]
  {
  }

  /** Erasing the element at the seam of `a + s[j..]`. */
  lemma EraseAt<T>(a: seq<T>, s: seq<T>, j: nat)
    requires j < |s|
    ensures (a + s[j..])[..|a|] + (a + s[j..])[|a| + 1..] == a + s[j + 1..]
  {
    assert (a + s[j..])[..|a|] == a;
    assert (a + s[j..])[|a| + 1..] == s[j + 1..];
  }

  /** Moving the seam of `a + s[j..]` one element to the right. */
  lemma KeepAt<T>(a: seq<T>, s: seq<T>, j: nat)
    requires j < |s|
    ensures a + [s[j]] + s[j + 1..] == a + s[j..]
  {
    assert s[j..] == [s[j]] + s[j + 1..];
  }
}
