/** `clean_content_for_llm`: the line filter that strips navigation, buttons and
    boilerplate from scraped markdown before it is sent to the language model,
    followed by truncation to a fixed character budget. */
module Cleaner {
  import opened Seqs
  import opened Text

  /** Lines whose lower-cased, stripped form contains one of these are dropped. */
  const SkipPatterns: seq<string> := [
    "button", "click", "menu", "nav", "navigation", "footer", "header",
    "cookie", "subscribe", "sign up", "log in", "login", "search",
    "©", "copyright", "all rights reserved", "privacy policy", "terms",
    "follow us", "social media", "share", "tweet", "facebook", "linkedin",
    "---", "***", "===="
  ]

  /** Characters of cleaned text handed on. */
  const MaxChars: nat := 3000

  /** A pattern that can only be found inside the stripped body of one line:
      non-empty, without line breaks, with non-blank ends. */
  predicate LineShaped(p: string) {
    |p| > 0 && '\n' !in p && !IsSpace(p[0]) && !IsSpace(p[|p| - 1])
  }

  /** Every skip pattern is line-shaped. */
  lemma SkipPatternShape(k: int)
    requires 0 <= k < |SkipPatterns|
    ensures var p := SkipPatterns[k];
              |p| > 0 && '\n' !in p && !IsSpace(p[0]) && !IsSpace(p[|p| - 1])
  {
    if k < 9 {
      FirstPatternsShaped();
    } else if k < 18 {
      MiddlePatternsShaped();
    } else {
      LastPatternsShaped();
    }
    assert LineShaped(SkipPatterns[k]);
  }

  lemma FirstPatternsShaped()
    ensures forall k :: 0 <= k < 9 ==> LineShaped(SkipPatterns[k])
  {
  }

  lemma MiddlePatternsShaped()
    ensures forall k :: 9 <= k < 18 ==> LineShaped(SkipPatterns[k])
  {
  }

  lemma LastPatternsShaped()
    ensures forall k :: 18 <= k < |SkipPatterns| ==> LineShaped(SkipPatterns[k])
  {
  }

  predicate HasDigit(t: string) {
    exists i :: 0 <= i < |t| && IsDigit(t[i])
  }

  /** The decision for one line, taken on its lower-cased, stripped form: it must
      be non-empty, free of skip patterns, not a markdown link line, and either
      at least ten characters long or hold a digit. */
  predicate Keep(line: string) {
    var t := Strip(Lower(line));
    && t != ""
    && !MentionsAny(t, SkipPatterns)
    && !(StartsWith(t, "[") && Contains(t, "]("))
    && (|t| >= 10 || HasDigit(t))
  }

  /** The lines that survive, verbatim and in their original order. */
  function KeptLines(markdown: string): (r: seq<string>)
    ensures Subseq(r, Split(markdown, '\n'))
    ensures forall line :: line in r <==> line in Split(markdown, '\n') && Keep(line)
    ensures forall k :: 0 <= k < |r| ==> '\n' !in r[k]
    ensures |r| == Count(Keep, Split(markdown, '\n'))
  {
    var lines := Split(markdown, '\n');
    var r := Filter(Keep, lines);
    FilterCount(Keep, lines);
    forall k | 0 <= k < |r| ensures '\n' !in r[k] {
      assert r[k] in lines;
    }
    r
  }

  /** `clean_content_for_llm(markdown)`. */
  function Clean(markdown: string): (r: string)
    ensures |r| <= MaxChars
    ensures markdown == "" ==> r == ""
    ensures markdown != "" ==> IsPrefix(r, JoinWith(KeptLines(markdown), "\n"))
    ensures markdown != "" ==> |r| == Min(|JoinWith(KeptLines(markdown), "\n")|, MaxChars)
    ensures markdown != "" && |JoinWith(KeptLines(markdown), "\n")| <= MaxChars ==>
              r == JoinWith(KeptLines(markdown), "\n")
  {
    if markdown == "" then ""
    else Take(JoinWith(KeptLines(markdown), "\n"), MaxChars)
  }

  /** No skip pattern survives anywhere in the cleaned text, in any letter case:
      neither within a kept line, nor across the line breaks, nor through the
      truncation. */
  lemma CleanHasNoSkipPattern(markdown: string, k: int)
    requires 0 <= k < |SkipPatterns|
    ensures !Occurs(Lower(Clean(markdown)), SkipPatterns[k])
  {
    SkipPatternShape(k);
    var kept := KeptLines(markdown);
    forall m | 0 <= m < |kept|
      ensures !Occurs(Strip(Lower(kept[m])), SkipPatterns[k])
    {
      assert kept[m] in kept;
      KeptLineIsFree(kept[m], k);
    }
    AbsentFromEveryLine(markdown, SkipPatterns[k]);
  }

  /** A kept line's lower-cased, stripped form holds no skip pattern. */
  lemma KeptLineIsFree(line: string, k: int)
    requires Keep(line) && 0 <= k < |SkipPatterns|
    ensures !Occurs(Strip(Lower(line)), SkipPatterns[k])
  {
    assert !Contains(Strip(Lower(line)), SkipPatterns[k]);
  }

  /** A single-line pattern with non-blank ends that no kept line holds (after
      lower-casing and stripping) is absent from the lower-cased cleaned text. */
  lemma AbsentFromEveryLine(markdown: string, p: string)
    requires |p| > 0 && '\n' !in p && !IsSpace(p[0]) && !IsSpace(p[|p| - 1])
    requires forall m :: 0 <= m < |KeptLines(markdown)| ==> !Occurs(Strip(Lower(KeptLines(markdown)[m])), p)
    ensures !Occurs(Lower(Clean(markdown)), p)
  {
    if Occurs(Lower(Clean(markdown)), p) {
      var kept := KeptLines(markdown);
      var joined := JoinWith(kept, "\n");
      var c := Clean(markdown);
      assert c == joined[..|c|];
      LowerPrefix(joined, |c|);
      OccursInPrefix(Lower(joined), |c|, p);
      LowerJoin(kept, "\n");
      OccursInJoin(LowerAll(kept), '\n', p);
      var m :| 0 <= m < |kept| && Occurs(LowerAll(kept)[m], p);
      OccursSurvivesStrip(Lower(kept[m]), p);
      assert false;
    }
  }

  /** When nothing is cut off, splitting the cleaned text at line breaks gives
      back exactly the kept lines. */
  lemma CleanSplitsIntoKeptLines(markdown: string)
    requires markdown != ""
    requires |KeptLines(markdown)| >= 1
    requires |JoinWith(KeptLines(markdown), "\n")| <= MaxChars
    ensures Split(Clean(markdown), '\n') == KeptLines(markdown)
  {
    SplitJoin(KeptLines(markdown), '\n');
  }
}
