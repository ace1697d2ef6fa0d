/** Order-preserving sequence filtering, the shape of every Python list
    comprehension with an `if` in the modelled code. */
module Seqs {

  /** `a` can be obtained from `b` by deleting elements (order kept, elements unchanged). */
  predicate Subseq<T(==,!new)>(a: seq<T>, b: seq<T>)
    decreases |b|
  {
    |a| == 0 || (|b| > 0 && ((a[0] == b[0] && Subseq(a[1..], b[1..])) || Subseq(a, b[1..])))
  }

  /** `[x for x in xs if keep(x)]`. */
  function Filter<T(==,!new)>(keep: T -> bool, xs: seq<T>): (r: seq<T>)
    ensures Subseq(r, xs)
    ensures forall i :: 0 <= i < |r| ==> keep(r[i])
    ensures forall x :: x in r <==> x in xs && keep(x)
    ensures |r| <= |xs|
    decreases |xs|
  {
    if |xs| == 0 then []
    else if keep(xs[0]) then [xs[0]] + Filter(keep, xs[1..])
    else Filter(keep, xs[1..])
  }

  /** Number of elements of `xs` that satisfy `keep`. */
  function Count<T>(keep: T -> bool, xs: seq<T>): nat
    decreases |xs|
  {
    if |xs| == 0 then 0 else (if keep(xs[0]) then 1 else 0) + Count(keep, xs[1..])
  }

  /** Filtering keeps exactly as many elements as satisfy the predicate. */
  lemma {:induction false} FilterCount<T(!new)>(keep: T -> bool, xs: seq<T>)
    ensures |Filter(keep, xs)| == Count(keep, xs)
    decreases |xs|
  {
    if |xs| > 0 {
      FilterCount(keep, xs[1..]);
    }
  }

  /** Filtering twice with the same predicate changes nothing the second time. */
  lemma {:induction false} FilterIdempotent<T(!new)>(keep: T -> bool, xs: seq<T>)
    ensures Filter(keep, Filter(keep, xs)) == Filter(keep, xs)
    decreases |xs|
  {
    if |xs| > 0 {
      FilterIdempotent(keep, xs[1..]);
    }
  }

  /** All elements are pairwise distinct. */
  predicate Distinct<T(==,!new)>(s: seq<T>) {
    forall i, j :: 0 <= i < j < |s| ==> s[i] != s[j]
  }

  /** `p` is a prefix of `s`. */
  predicate IsPrefix<T(==,!new)>(p: seq<T>, s: seq<T>) {
    |p| <= |s| && s[..|p|] == p
  }

  /** The position of the first occurrence of `x` in `s` (`s.index(x)`). */
  function IndexOf<T(==)>(s: seq<T>, x: T): (r: nat)
    requires x in s
    ensures r < |s| && s[r] == x && x !in s[..r]
    decreases |s|
  {
    if s[0] == x then 0
    else
      var r := IndexOf(s[1..], x);
      assert s[..r + 1] == [s[0]] + s[1..][..r];
      r + 1
  }

  /** A position holding `x` with no earlier `x` is the first occurrence. */
  lemma IndexOfUnique<T>(s: seq<T>, x: T, k: nat)
    requires k < |s| && s[k] == x && x !in s[..k]
    ensures IndexOf(s, x) == k
  {
    var r := IndexOf(s, x);
    assert forall m :: 0 <= m < k ==> s[..k][m] == s[m];
    assert forall m :: 0 <= m < r ==> s[..r][m] == s[m];
  }

  /** Extending a sequence does not move the first occurrence of what it already holds. */
  lemma IndexOfPrefix<T(!new)>(p: seq<T>, s: seq<T>, x: T)
    requires IsPrefix(p, s) && x in p
    ensures x in s && IndexOf(s, x) == IndexOf(p, x)
  {
    var k := IndexOf(p, x);
    assert s[k] == p[k];
    assert s[..k] == p[..k];
    IndexOfUnique(s, x, k);
  }

  /** What a prefix lacks first occurs in the extension beyond that prefix. */
  lemma IndexOfBeyond<T(!new)>(p: seq<T>, s: seq<T>, x: T)
    requires IsPrefix(p, s) && x in s && x !in p
    ensures IndexOf(s, x) >= |p|
  {
    assert forall m :: 0 <= m < |p| ==> s[m] == p[m] && p[m] != x;
  }

  function Min(a: int, b: int): int {
    if a <= b then a else b
  }
}
