/** The Python string operations the pipeline relies on, over `seq<char>`:
    `lower`, `strip`, `in`, `startswith`, `split`, `join`, `replace`, `split()`
    word counting and `s[:n]` truncation. Lower-casing is ASCII-only. */
module Text {
  import opened Seqs

  // ---------------------------------------------------------------------------
  // Characters

  /** The characters Python's `str.isspace` accepts (used by `strip` and `split()`). */
  predicate IsSpace(c: char) {
    || c == ' ' || ('\t' <= c <= '\r') || ('\U{1C}' <= c <= '\U{1F}')
    || c == '\U{85}' || c == '\U{A0}' || c == '\U{1680}'
    || ('\U{2000}' <= c <= '\U{200A}') || c == '\U{2028}' || c == '\U{2029}'
    || c == '\U{202F}' || c == '\U{205F}' || c == '\U{3000}'
  }

  predicate IsDigit(c: char) {
    '0' <= c <= '9'
  }

  function LowerChar(c: char): char {
    if 'A' <= c <= 'Z' then (c as int + 32) as char else c
  }

  /** `s.lower()` restricted to ASCII letters. */
  function Lower(s: string): string {
    seq(|s|, i requires 0 <= i < |s| => LowerChar(s[i]))
  }

  /** Lower-casing commutes with concatenation. */
  lemma LowerConcat(a: string, b: string)
    ensures Lower(a + b) == Lower(a) + Lower(b)
  {
  }

  /** Lower-casing commutes with taking a suffix. */
  lemma LowerSuffix(s: string, a: nat)
    requires a <= |s|
    ensures Lower(s[a..]) == Lower(s)[a..]
  {
  }

  /** Lower-casing commutes with taking a prefix. */
  lemma LowerPrefix(s: string, n: nat)
    requires n <= |s|
    ensures Lower(s[..n]) == Lower(s)[..n]
  {
  }

  // ---------------------------------------------------------------------------
  // Prefixes and substrings

  /** `s.startswith(p)`. */
  predicate StartsWith(s: string, p: string) {
    |p| <= |s| && s[..|p|] == p
  }

  /** `needle` occurs in `hay` starting at offset `i`. */
  predicate OccursAt(hay: string, needle: string, i: nat) {
    i + |needle| <= |hay| && hay[i..i + |needle|] == needle
  }

  /** The specification of Python's `needle in hay`. */
  ghost predicate Occurs(hay: string, needle: string) {
    exists i: nat :: OccursAt(hay, needle, i)
  }

  /** Python's `needle in hay`, computed by trying each offset in turn. */
  function Contains(hay: string, needle: string): (r: bool)
    ensures r <==> Occurs(hay, needle)
    decreases |hay|
  {
    if StartsWith(hay, needle) then
      assert OccursAt(hay, needle, 0);
      true
    else if |hay| == 0 then
      false
    else
      ShiftOccurs(hay, needle);
      Contains(hay[1..], needle)
  }

  /** Away from offset 0, an occurrence in `hay` is an occurrence in `hay[1..]` shifted by one. */
  lemma ShiftOccurs(hay: string, needle: string)
    requires |hay| > 0 && !StartsWith(hay, needle)
    ensures Occurs(hay, needle) <==> Occurs(hay[1..], needle)
  {
    if Occurs(hay, needle) {
      var i: nat :| OccursAt(hay, needle, i);
      assert i != 0;
      assert hay[1..][i - 1..i - 1 + |needle|] == hay[i..i + |needle|];
      assert OccursAt(hay[1..], needle, i - 1);
    }
    if Occurs(hay[1..], needle) {
      var j: nat :| OccursAt(hay[1..], needle, j);
      assert hay[j + 1..j + 1 + |needle|] == hay[1..][j..j + |needle|];
      assert OccursAt(hay, needle, j + 1);
    }
  }

  /** An occurrence inside a prefix is an occurrence in the whole string. */
  lemma OccursInPrefix(s: string, n: nat, needle: string)
    requires n <= |s| && Occurs(s[..n], needle)
    ensures Occurs(s, needle)
  {
    var i: nat :| OccursAt(s[..n], needle, i);
    assert s[i..i + |needle|] == s[..n][i..i + |needle|];
    assert OccursAt(s, needle, i);
  }

  /** An occurrence in `b` is an occurrence in `a + b + c`. */
  lemma OccursInMiddle(a: string, b: string, c: string, needle: string)
    requires Occurs(b, needle)
    ensures Occurs(a + b + c, needle)
  {
    var i: nat :| OccursAt(b, needle, i);
    var s := a + b + c;
    assert s[|a| + i..|a| + i + |needle|] == b[i..i + |needle|];
    assert OccursAt(s, needle, |a| + i);
  }

  /** Python's `any(k in s for k in keywords)`. */
  predicate MentionsAny(s: string, keywords: seq<string>) {
    exists k :: 0 <= k < |keywords| && Contains(s, keywords[k])
  }

  // ---------------------------------------------------------------------------
  // Stripping

  /** Number of leading whitespace characters. */
  function LeadingSpaces(s: string): (n: nat)
    ensures n <= |s|
    ensures forall i :: 0 <= i < n ==> IsSpace(s[i])
    ensures n < |s| ==> !IsSpace(s[n])
    decreases |s|
  {
    if |s| > 0 && IsSpace(s[0]) then 1 + LeadingSpaces(s[1..]) else 0
  }

  /** Number of trailing whitespace characters. */
  function TrailingSpaces(s: string): (n: nat)
    ensures n <= |s|
    ensures forall i :: |s| - n <= i < |s| ==> IsSpace(s[i])
    ensures n < |s| ==> !IsSpace(s[|s| - n - 1])
    decreases |s|
  {
    if |s| > 0 && IsSpace(s[|s| - 1]) then 1 + TrailingSpaces(s[..|s| - 1]) else 0
  }

  /** `s.strip()`: the slice left after dropping leading and trailing whitespace. */
  function Strip(s: string): string {
    var t := s[LeadingSpaces(s)..];
    t[..|t| - TrailingSpaces(t)]
  }

  /** Neither end of `s` is whitespace. */
  predicate IsStripped(s: string) {
    |s| == 0 || (!IsSpace(s[0]) && !IsSpace(s[|s| - 1]))
  }

  /** `Strip` returns the maximal inner slice: what it drops is whitespace and what
      it keeps starts and ends with non-whitespace. */
  lemma StripShape(s: string)
    ensures IsStripped(Strip(s))
    ensures LeadingSpaces(s) + |Strip(s)| <= |s|
    ensures Strip(s) == s[LeadingSpaces(s)..LeadingSpaces(s) + |Strip(s)|]
    ensures forall i :: 0 <= i < LeadingSpaces(s) ==> IsSpace(s[i])
    ensures forall i :: LeadingSpaces(s) + |Strip(s)| <= i < |s| ==> IsSpace(s[i])
  {
    StripEnds(s);
    StripDrops(s);
  }

  /** Neither end of the stripped string is whitespace. */
  lemma StripEnds(s: string)
    ensures IsStripped(Strip(s))
  {
    var a := LeadingSpaces(s);
    var t := s[a..];
    var b := TrailingSpaces(t);
    var r := t[..|t| - b];
    assert Strip(s) == r;
    if |r| > 0 {
      assert r[0] == t[0] == s[a];
      assert r[|r| - 1] == t[|t| - b - 1];
    }
  }

  /** The stripped string is a slice of the input with only whitespace around it. */
  lemma StripDrops(s: string)
    ensures LeadingSpaces(s) + |Strip(s)| <= |s|
    ensures Strip(s) == s[LeadingSpaces(s)..LeadingSpaces(s) + |Strip(s)|]
    ensures forall i :: LeadingSpaces(s) + |Strip(s)| <= i < |s| ==> IsSpace(s[i])
  {
    var a := LeadingSpaces(s);
    var t := s[a..];
    var b := TrailingSpaces(t);
    var r := t[..|t| - b];
    assert Strip(s) == r;
    assert r == s[a..a + |r|];
    forall i | a + |r| <= i < |s|
      ensures IsSpace(s[i])
    {
      assert s[i] == t[i - a];
    }
  }

  /** Stripping an already stripped string changes nothing. */
  lemma StripIdempotent(s: string)
    ensures Strip(Strip(s)) == Strip(s)
  {
    StripShape(s);
    var t := Strip(s);
    if |t| > 0 {
      assert LeadingSpaces(t) == 0;
      assert TrailingSpaces(t) == 0;
    }
  }

  /** `strip` leaves an already stripped string alone. */
  lemma StripOfStripped(s: string)
    requires IsStripped(s)
    ensures Strip(s) == s
  {
    if |s| > 0 {
      assert LeadingSpaces(s) == 0;
      assert TrailingSpaces(s) == 0;
    }
  }

  /** A needle whose first and last characters are not whitespace and that occurs
      in `s` also occurs in `s.strip()`. */
  lemma {:induction false} OccursSurvivesStrip(s: string, needle: string)
    requires |needle| > 0 && !IsSpace(needle[0]) && !IsSpace(needle[|needle| - 1])
    requires Occurs(s, needle)
    ensures Occurs(Strip(s), needle)
  {
    StripDrops(s);
    var a := LeadingSpaces(s);
    OccursBetweenSpaces(s, a, a + |Strip(s)|, needle);
  }

  /** A needle with non-blank ends that occurs in `s` lies inside any slice
      `s[lo..hi]` outside of which `s` is all whitespace. */
  lemma OccursBetweenSpaces(s: string, lo: nat, hi: nat, needle: string)
    requires lo <= hi <= |s|
    requires forall k :: 0 <= k < lo ==> IsSpace(s[k])
    requires forall k :: hi <= k < |s| ==> IsSpace(s[k])
    requires |needle| > 0 && !IsSpace(needle[0]) && !IsSpace(needle[|needle| - 1])
    requires Occurs(s, needle)
    ensures Occurs(s[lo..hi], needle)
  {
    var i: nat :| OccursAt(s, needle, i);
    var e := i + |needle| - 1;
    assert s[i] == needle[0] && s[e] == needle[|needle| - 1] by {
      assert s[i..i + |needle|] == needle;
    }
    assert !IsSpace(s[i]) && !IsSpace(s[e]);
    assert lo <= i;
    assert e < hi;
    var t := s[lo..hi];
    assert t[i - lo..i - lo + |needle|] == needle by {
      forall k | 0 <= k < |needle|
        ensures t[i - lo + k] == needle[k]
      {
        assert t[i - lo + k] == s[i + k] == s[i..i + |needle|][k];
      }
    }
    assert OccursAt(t, needle, i - lo);
  }

  /** `s.rstrip(c)` for a single character `c`. */
  function DropTrailing(s: string, c: char): string
    decreases |s|
  {
    if |s| > 0 && s[|s| - 1] == c then DropTrailing(s[..|s| - 1], c) else s
  }

  /** `s.lstrip(c)` for a single character `c`. */
  function DropLeading(s: string, c: char): string
    decreases |s|
  {
    if |s| > 0 && s[0] == c then DropLeading(s[1..], c) else s
  }

  // ---------------------------------------------------------------------------
  // Splitting and joining

  /** `s.split(sep)` for a one-character separator: the pieces between separators. */
  function Split(s: string, sep: char): (parts: seq<string>)
    ensures |parts| >= 1
    ensures forall k :: 0 <= k < |parts| ==> sep !in parts[k]
    decreases |s|
  {
    if |s| == 0 then [""]
    else
      var rest := Split(s[1..], sep);
      if s[0] == sep then [""] + rest else [[s[0]] + rest[0]] + rest[1..]
  }

  /** `sep.join(parts)`. */
  function JoinWith(parts: seq<string>, sep: string): string
    decreases |parts|
  {
    if |parts| == 0 then ""
    else if |parts| == 1 then parts[0]
    else parts[0] + sep + JoinWith(parts[1..], sep)
  }

  /** Joining what `Split` produced gives back the original string. */
  lemma {:induction false} JoinSplit(s: string, sep: char)
    ensures JoinWith(Split(s, sep), [sep]) == s
    decreases |s|
  {
    if |s| > 0 {
      JoinSplit(s[1..], sep);
      var rest := Split(s[1..], sep);
      if s[0] == sep {
        assert Split(s, sep) == [""] + rest;
        assert JoinWith([""] + rest, [sep]) == "" + [sep] + JoinWith(rest, [sep]);
        assert s == [s[0]] + s[1..];
      } else {
        var parts := Split(s, sep);
        assert parts == [[s[0]] + rest[0]] + rest[1..];
        if |rest| == 1 {
          assert JoinWith(parts, [sep]) == [s[0]] + rest[0];
        } else {
          assert parts[1..] == rest[1..];
          assert JoinWith(parts, [sep]) == [s[0]] + rest[0] + [sep] + JoinWith(rest[1..], [sep]);
          assert JoinWith(rest, [sep]) == rest[0] + [sep] + JoinWith(rest[1..], [sep]);
        }
        assert s == [s[0]] + s[1..];
      }
    }
  }

  /** A string without the separator splits into itself alone. */
  lemma {:induction false} SplitNoSeparator(s: string, sep: char)
    requires sep !in s
    ensures Split(s, sep) == [s]
    decreases |s|
  {
    if |s| > 0 {
      SplitNoSeparator(s[1..], sep);
      assert s == [s[0]] + s[1..];
    }
  }

  /** Splitting distributes over a separator placed between two strings. */
  lemma {:induction false} SplitConcat(a: string, b: string, sep: char)
    ensures Split(a + [sep] + b, sep) == Split(a, sep) + Split(b, sep)
    decreases |a|
  {
    if |a| == 0 {
      assert a + [sep] + b == [sep] + b;
      SplitCons(sep, b, sep);
    } else {
      var t := a[1..] + [sep] + b;
      assert a + [sep] + b == [a[0]] + t;
      assert a == [a[0]] + a[1..];
      SplitConcat(a[1..], b, sep);
      var ra := Split(a[1..], sep);
      var rb := Split(b, sep);
      SplitCons(a[0], t, sep);
      SplitCons(a[0], a[1..], sep);
      if a[0] != sep {
        ExtendHead([a[0]], ra, rb);
      }
    }
  }

  /** One unfolding of `Split` on a string with a known first character. */
  lemma SplitCons(c: char, rest: string, sep: char)
    ensures c == sep ==> Split([c] + rest, sep) == [""] + Split(rest, sep)
    ensures c != sep ==> Split([c] + rest, sep) == [[c] + Split(rest, sep)[0]] + Split(rest, sep)[1..]
  {
    assert ([c] + rest)[1..] == rest;
  }

  /** Prefixing the first piece commutes with appending more pieces. */
  lemma ExtendHead(x: string, ra: seq<string>, rb: seq<string>)
    requires |ra| >= 1
    ensures [x + (ra + rb)[0]] + (ra + rb)[1..] == [x + ra[0]] + ra[1..] + rb
  {
    assert (ra + rb)[1..] == ra[1..] + rb;
  }

  /** Splitting a join gives back the parts, provided no part holds the separator. */
  lemma {:induction false} SplitJoin(parts: seq<string>, sep: char)
    requires |parts| >= 1
    requires forall k :: 0 <= k < |parts| ==> sep !in parts[k]
    ensures Split(JoinWith(parts, [sep]), sep) == parts
    decreases |parts|
  {
    SplitNoSeparator(parts[0], sep);
    if |parts| > 1 {
      SplitJoin(parts[1..], sep);
      SplitConcat(parts[0], JoinWith(parts[1..], [sep]), sep);
      assert [parts[0]] + parts[1..] == parts;
    }
  }

  /** A needle without the separator that occurs in a join occurs in one of the parts. */
  lemma {:induction false} OccursInJoin(parts: seq<string>, sep: char, needle: string)
    requires |needle| > 0 && sep !in needle
    requires Occurs(JoinWith(parts, [sep]), needle)
    ensures exists k :: 0 <= k < |parts| && Occurs(parts[k], needle)
    decreases |parts|
  {
    if |parts| == 0 {
      assert false;
    } else if |parts| == 1 {
      assert Occurs(parts[0], needle);
    } else {
      var head := parts[0];
      var tail := JoinWith(parts[1..], [sep]);
      var s := JoinWith(parts, [sep]);
      assert s == head + [sep] + tail;
      var i: nat :| OccursAt(s, needle, i);
      if i + |needle| <= |head| {
        assert head[i..i + |needle|] == s[i..i + |needle|];
        assert OccursAt(head, needle, i);
      } else if i > |head| {
        assert tail[i - |head| - 1..i - |head| - 1 + |needle|] == s[i..i + |needle|];
        assert OccursAt(tail, needle, i - |head| - 1);
        OccursInJoin(parts[1..], sep, needle);
        var k :| 0 <= k < |parts[1..]| && Occurs(parts[1..][k], needle);
        assert parts[k + 1] == parts[1..][k];
      } else {
        OccursAtIndex(s, needle, i, |head|);
        assert false;
      }
    }
  }

  /** Inside an occurrence, the needle's characters are the string's characters. */
  lemma OccursAtIndex(s: string, needle: string, i: nat, k: nat)
    requires OccursAt(s, needle, i) && i <= k < i + |needle|
    ensures needle[k - i] == s[k]
  {
    assert s[i..i + |needle|][k - i] == s[k];
  }

  /** Lower-casing a join lower-cases each part (the separator has no letters). */
  lemma {:induction false} LowerJoin(parts: seq<string>, sep: string)
    requires Lower(sep) == sep
    ensures Lower(JoinWith(parts, sep)) == JoinWith(LowerAll(parts), sep)
    decreases |parts|
  {
    if |parts| > 1 {
      LowerJoin(parts[1..], sep);
      LowerConcat(parts[0] + sep, JoinWith(parts[1..], sep));
      LowerConcat(parts[0], sep);
      assert LowerAll(parts)[1..] == LowerAll(parts[1..]);
    }
  }

  function LowerAll(parts: seq<string>): (r: seq<string>)
    ensures |r| == |parts|
    ensures forall k :: 0 <= k < |parts| ==> r[k] == Lower(parts[k])
  {
    seq(|parts|, k requires 0 <= k < |parts| => Lower(parts[k]))
  }

  /** Index of the first `c` in `s`, or `|s|` when there is none. */
  function FirstIndex(s: string, c: char): (n: nat)
    ensures n <= |s|
    ensures c !in s[..n]
    ensures n < |s| ==> s[n] == c
    decreases |s|
  {
    if |s| == 0 || s[0] == c then 0
    else
      var n := FirstIndex(s[1..], c);
      assert s[..n + 1] == [s[0]] + s[1..][..n];
      n + 1
  }

  /** The text after the first `c`, or all of `s` when `c` is absent:
      Python's `s.split(c, 1)[-1]`. */
  function AfterFirst(s: string, c: char): string {
    var n := FirstIndex(s, c);
    if n == |s| then s else s[n + 1..]
  }

  // ---------------------------------------------------------------------------
  // Replacing and words

  /** `s.replace(pat, repl)`: left to right, non-overlapping. */
  function Replace(s: string, pat: string, repl: string): string
    requires |pat| > 0
    decreases |s|
  {
    if |s| == 0 then ""
    else if StartsWith(s, pat) then repl + Replace(s[|pat|..], pat, repl)
    else [s[0]] + Replace(s[1..], pat, repl)
  }

  /** `s` with every `c` removed. */
  function Without(s: string, c: char): (r: string)
    ensures c !in r
    ensures |r| <= |s|
    decreases |s|
  {
    if |s| == 0 then "" else (if s[0] == c then "" else [s[0]]) + Without(s[1..], c)
  }

  lemma {:induction false} WithoutConcat(a: string, b: string, c: char)
    ensures Without(a + b, c) == Without(a, c) + Without(b, c)
    decreases |a|
  {
    if |a| == 0 {
      assert a + b == b;
    } else {
      var h := if a[0] == c then "" else [a[0]];
      assert (a + b)[0] == a[0];
      assert (a + b)[1..] == a[1..] + b;
      WithoutConcat(a[1..], b, c);
      calc {
        Without(a + b, c);
        h + Without(a[1..] + b, c);
        h + (Without(a[1..], c) + Without(b, c));
        (h + Without(a[1..], c)) + Without(b, c);
        Without(a, c) + Without(b, c);
      }
    }
  }

  /** Removing a character that does not occur changes nothing. */
  lemma {:induction false} WithoutAbsent(s: string, c: char)
    requires c !in s
    ensures Without(s, c) == s
    decreases |s|
  {
    if |s| > 0 {
      WithoutAbsent(s[1..], c);
      assert [s[0]] + s[1..] == s;
    }
  }

  /** `strip` removes one leading blank before an already stripped string. */
  lemma StripLeadingBlank(s: string)
    requires IsStripped(s)
    ensures Strip(" " + s) == s
  {
    var t := " " + s;
    assert t[1..] == s;
    assert LeadingSpaces(t) == 1 + LeadingSpaces(s);
    if |s| > 0 {
      assert LeadingSpaces(s) == 0;
      assert TrailingSpaces(s) == 0;
    }
  }

  /** `s.replace('**', '').replace('*', '')`, the markdown-bold scrub applied to
      every answer the language model returns. */
  function Unstar(s: string): string {
    Replace(Replace(s, "**", ""), "*", "")
  }

  /** Replacing a one-character string by nothing removes that character. */
  lemma {:induction false} ReplaceCharByNothing(s: string, c: char)
    ensures Replace(s, [c], "") == Without(s, c)
    decreases |s|
  {
    if |s| > 0 {
      ReplaceCharByNothing(s[1..], c);
    }
  }

  /** Removing `**` pairs first does not change which characters survive removing `*`. */
  lemma {:induction false} DoubleStarFirst(s: string)
    ensures Without(Replace(s, "**", ""), '*') == Without(s, '*')
    decreases |s|
  {
    if |s| > 0 {
      if StartsWith(s, "**") {
        DoubleStarFirst(s[2..]);
        DoubleStarStep(s);
      } else {
        DoubleStarFirst(s[1..]);
        OtherCharStep(s);
      }
    }
  }

  /** A leading `**` vanishes under both sides. */
  lemma DoubleStarStep(s: string)
    requires StartsWith(s, "**")
    requires Without(Replace(s[2..], "**", ""), '*') == Without(s[2..], '*')
    ensures Without(Replace(s, "**", ""), '*') == Without(s, '*')
  {
    var r := s[2..];
    assert Replace(s, "**", "") == Replace(r, "**", "");
    assert s == "**" + r;
    WithoutConcat("**", r, '*');
    assert Without("**", '*') == "";
  }

  /** A leading character that does not start `**` is kept by the first replace. */
  lemma OtherCharStep(s: string)
    requires |s| > 0 && !StartsWith(s, "**")
    requires Without(Replace(s[1..], "**", ""), '*') == Without(s[1..], '*')
    ensures Without(Replace(s, "**", ""), '*') == Without(s, '*')
  {
    var r := s[1..];
    var h := [s[0]];
    assert Replace(s, "**", "") == h + Replace(r, "**", "");
    WithoutConcat(h, Replace(r, "**", ""), '*');
    assert s == h + r;
    WithoutConcat(h, r, '*');
  }

  /** The two chained replaces remove exactly the `*` characters and nothing else. */
  lemma UnstarIsWithout(s: string)
    ensures Unstar(s) == Without(s, '*')
    ensures '*' !in Unstar(s)
  {
    ReplaceCharByNothing(Replace(s, "**", ""), '*');
    DoubleStarFirst(s);
  }

  /** Number of non-whitespace characters at the start of `s`. */
  function WordLength(s: string): (n: nat)
    ensures n <= |s|
    decreases |s|
  {
    if |s| > 0 && !IsSpace(s[0]) then 1 + WordLength(s[1..]) else 0
  }

  /** `len(s.split())`: the number of maximal runs of non-whitespace characters. */
  function WordCount(s: string): nat
    decreases |s|
  {
    if |s| == 0 then 0
    else if IsSpace(s[0]) then WordCount(s[1..])
    else 1 + WordCount(s[WordLength(s)..])
  }

  // ---------------------------------------------------------------------------
  // Truncation and numbers

  /** `s[:n]` for `n >= 0`. */
  function Take(s: string, n: nat): (r: string)
    ensures |r| <= n
    ensures IsPrefix(r, s)
    ensures |s| <= n ==> r == s
    ensures |s| > n ==> |r| == n
  {
    if |s| <= n then s else s[..n]
  }

  /** `str(n)` for a natural number. */
  function Decimal(n: nat): (r: string)
    ensures |r| > 0
    ensures forall i :: 0 <= i < |r| ==> IsDigit(r[i])
    ensures DigitsValue(r) == n
    ensures n == 0 ==> r == "0"
    ensures n > 0 ==> r[0] != '0'
  {
    var d := [('0' as int + n % 10) as char];
    if n < 10 then d
    else
      var r := Decimal(n / 10) + d;
      assert r[..|r| - 1] == Decimal(n / 10);
      r
  }

  /** `int(s)` for a string of decimal digits. */
  function DigitsValue(s: string): int
    decreases |s|
  {
    if |s| == 0 then 0 else 10 * DigitsValue(s[..|s| - 1]) + (s[|s| - 1] as int - '0' as int)
  }
}
