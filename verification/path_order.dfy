/** The order homepage candidates are tried in: Python's
    `sorted(set(paths), key=lambda p: (len(p), p))`, shorter paths first and
    equal lengths by code-point comparison. */
module PathOrder {
  import opened Seqs

  /** Python's `a < b` on strings: code-point lexicographic order, a proper
      prefix sorting first. */
  predicate LexLess(a: string, b: string)
    decreases |a|
  {
    if |a| == 0 then |b| > 0
    else if |b| == 0 then false
    else if a[0] != b[0] then a[0] < b[0]
    else LexLess(a[1..], b[1..])
  }

  lemma {:induction false} LexLessIrreflexive(a: string)
    ensures !LexLess(a, a)
    decreases |a|
  {
    if |a| > 0 {
      LexLessIrreflexive(a[1..]);
    }
  }

  lemma {:induction false} LexLessTransitive(a: string, b: string, c: string)
    requires LexLess(a, b) && LexLess(b, c)
    ensures LexLess(a, c)
    decreases |a|
  {
    if |a| > 0 && |b| > 0 && |c| > 0 && a[0] == b[0] && b[0] == c[0] {
      LexLessTransitive(a[1..], b[1..], c[1..]);
    }
  }

  lemma {:induction false} LexLessTotal(a: string, b: string)
    requires a != b
    ensures LexLess(a, b) || LexLess(b, a)
    decreases |a|
  {
    if |a| > 0 && |b| > 0 && a[0] == b[0] {
      assert a == [a[0]] + a[1..] && b == [b[0]] + b[1..];
      LexLessTotal(a[1..], b[1..]);
    }
  }

  /** The sort key `(len(p), p)` compared as a Python tuple. */
  predicate KeyLess(a: string, b: string) {
    |a| < |b| || (|a| == |b| && LexLess(a, b))
  }

  /** A list holding some path twice is not strictly ordered. */
  lemma DuplicateNotSorted(s: seq<string>, x: nat, y: nat)
    requires x < y < |s| && s[x] == s[y]
    ensures !StrictlySorted(s)
    ensures exists i, j :: 0 <= i < j < |s| && s[i] == s[j]
  {
    KeyLessStrictTotal(s[x], s[x], s[x]);
  }

  /** The key order is a strict total order on strings. */
  lemma KeyLessStrictTotal(a: string, b: string, c: string)
    ensures !KeyLess(a, a)
    ensures KeyLess(a, b) && KeyLess(b, c) ==> KeyLess(a, c)
    ensures a != b ==> KeyLess(a, b) || KeyLess(b, a)
    ensures KeyLess(a, b) ==> !KeyLess(b, a)
  {
    LexLessIrreflexive(a);
    if KeyLess(a, b) && KeyLess(b, c) && |a| == |b| == |c| {
      LexLessTransitive(a, b, c);
    }
    if a != b && |a| == |b| {
      LexLessTotal(a, b);
    }
    if KeyLess(a, b) && KeyLess(b, a) {
      LexLessTransitive(a, b, a);
      LexLessIrreflexive(a);
    }
  }

  /** Strictly increasing in key order, hence also free of duplicates. */
  predicate StrictlySorted(s: seq<string>) {
    forall i, j :: 0 <= i < j < |s| ==> KeyLess(s[i], s[j])
  }

  /** Puts `x` at its place in a strictly sorted list, unless it is already there. */
  function Insert(x: string, s: seq<string>): (r: seq<string>)
    requires StrictlySorted(s)
    ensures StrictlySorted(r)
    ensures forall y :: y in r <==> y == x || y in s
    decreases |s|
  {
    if |s| == 0 then [x]
    else if x == s[0] then s
    else if KeyLess(x, s[0]) then
      forall j | 0 <= j < |s| {
        KeyLessStrictTotal(x, s[0], s[j]);
      }
      [x] + s
    else
      var rest := Insert(x, s[1..]);
      KeyLessStrictTotal(x, s[0], x);
      forall j | 0 <= j < |rest| ensures KeyLess(s[0], rest[j]) {
        if rest[j] != x {
          assert rest[j] in s[1..];
        }
      }
      [s[0]] + rest
  }

  /** `sorted(set(xs), key=lambda p: (len(p), p))`. */
  function SortUnique(xs: seq<string>): (r: seq<string>)
    ensures StrictlySorted(r)
    ensures forall y :: y in r <==> y in xs
    decreases |xs|
  {
    if |xs| == 0 then [] else Insert(xs[0], SortUnique(xs[1..]))
  }

  /** A strictly sorted list is determined by its elements: `SortUnique` computes
      the one arrangement Python's `sorted(set(...))` can produce. */
  lemma {:induction false} SortedIsUnique(a: seq<string>, b: seq<string>)
    requires StrictlySorted(a) && StrictlySorted(b)
    requires forall y :: y in a <==> y in b
    ensures a == b
    decreases |a|
  {
    if |a| > 0 {
      assert a[0] in b;
      assert b[0] in a;
      if a[0] != b[0] {
        var i :| 0 <= i < |a| && a[i] == b[0];
        var j :| 0 <= j < |b| && b[j] == a[0];
        assert i > 0 && j > 0;
        KeyLessStrictTotal(a[0], b[0], a[0]);
        assert false;
      }
      KeyLessStrictTotal(a[0], a[0], a[0]);
      forall y ensures y in a[1..] <==> y in b[1..] {
        if y in a[1..] {
          var i :| 1 <= i < |a| && a[i] == y;
          assert KeyLess(a[0], a[i]);
          assert y in b && y != b[0];
          var j :| 0 <= j < |b| && b[j] == y;
          assert b[1..][j - 1] == y;
        }
        if y in b[1..] {
          var j :| 1 <= j < |b| && b[j] == y;
          assert KeyLess(b[0], b[j]);
          assert y in a && y != a[0];
          var i :| 0 <= i < |a| && a[i] == y;
          assert a[1..][i - 1] == y;
        }
      }
      SortedIsUnique(a[1..], b[1..]);
      assert a == [a[0]] + a[1..] && b == [b[0]] + b[1..];
    } else if |b| > 0 {
      HeadIsElement(b);
      assert false;
    }
  }

  lemma HeadIsElement(s: seq<string>)
    requires |s| > 0
    ensures s[0] in s
  {
  }

  const MaxCandidates := 15

  /** The candidate list discovery hands to the prober: the distinct paths in key
      order, cut to the first fifteen. */
  function Shortlist(paths: seq<string>): (r: seq<string>)
    ensures |r| <= MaxCandidates
    ensures StrictlySorted(r)
    ensures forall y :: y in r ==> y in paths
    ensures forall y :: y in paths && y !in r ==>
              |r| == MaxCandidates && forall k :: 0 <= k < |r| ==> KeyLess(r[k], y)
  {
    var all := SortUnique(paths);
    var r := if |all| <= MaxCandidates then all else all[..MaxCandidates];
    forall y | y in paths && y !in r
      ensures |r| == MaxCandidates && forall k :: 0 <= k < |r| ==> KeyLess(r[k], y)
    {
      var i :| 0 <= i < |all| && all[i] == y;
      assert i >= MaxCandidates;
    }
    r
  }
}
