/** What the three signal matchers share: a parsed HTML page reduced to its
    text nodes in document order (each with the text of its parent element,
    absent for a parentless node), the page text BeautifulSoup's
    `get_text(" ", strip=True)` produces, case-insensitive needle search, and
    the ordered `(needle, category)` keyword tables. */
module KeywordMatch {
  import opened Wrappers
  import opened Seqs
  import opened Text

  /** One text node and the whitespace-joined, stripped text of its parent element. */
  datatype TextNode = TextNode(text: string, parentText: Option<string>)

  type Document = seq<TextNode>

  /** One keyword table row: the needle searched for and the category reported. */
  datatype Entry = Entry(needle: string, category: string)

  /** Characters of context kept in a snippet. */
  const SnippetChars: nat := 240

  /** The stripped text of every node, in order. */
  function StrippedTexts(doc: Document): (r: seq<string>)
    ensures |r| == |doc|
    ensures forall i :: 0 <= i < |doc| ==> r[i] == Strip(doc[i].text)
  {
    seq(|doc|, i requires 0 <= i < |doc| => Strip(doc[i].text))
  }

  predicate NonEmpty(s: string) {
    s != ""
  }

  /** `soup.get_text(" ", strip=True)`: the non-blank node texts, each stripped,
      joined with single spaces. */
  function PageText(doc: Document): string {
    JoinWith(Filter(NonEmpty, StrippedTexts(doc)), " ")
  }

  /** `needle.lower() in text.lower()` on the page text. */
  predicate Mentions(doc: Document, needle: string) {
    Contains(Lower(PageText(doc)), Lower(needle))
  }

  /** The node `soup.find(string=...)` returns: the first node whose own text
      contains the needle, ignoring case. */
  predicate NodeHas(node: TextNode, needle: string) {
    Contains(Lower(node.text), Lower(needle))
  }

  function FirstNodeWith(doc: Document, needle: string): (r: Option<nat>)
    ensures r.None? <==> forall i :: 0 <= i < |doc| ==> !NodeHas(doc[i], needle)
    ensures r.Some? ==> r.value < |doc| && NodeHas(doc[r.value], needle)
    ensures r.Some? ==> forall i :: 0 <= i < r.value ==> !NodeHas(doc[i], needle)
    decreases |doc|
  {
    if |doc| == 0 then None
    else if NodeHas(doc[0], needle) then Some(0)
    else
      match FirstNodeWith(doc[1..], needle)
      case None => None
      case Some(i) => Some(i + 1)
  }

  /** The table rows whose needle the page mentions, in table order. */
  function MatchedEntries(doc: Document, table: seq<Entry>): (r: seq<Entry>)
    ensures Subseq(r, table)
    ensures |r| <= |table|
    ensures forall e :: e in r <==> e in table && Mentions(doc, e.needle)
  {
    Filter((e: Entry) => Mentions(doc, e.needle), table)
  }

  /** Where a mentioned table row sits among the matched rows. */
  lemma MatchedIndex(doc: Document, table: seq<Entry>, k: int) returns (i: int)
    requires 0 <= k < |table| && Mentions(doc, table[k].needle)
    ensures 0 <= i < |MatchedEntries(doc, table)| && MatchedEntries(doc, table)[i] == table[k]
  {
    var m := MatchedEntries(doc, table);
    assert table[k] in table;
    i :| 0 <= i < |m| && m[i] == table[k];
  }

  /** Two different mentioned rows give two different matched positions. */
  lemma TwoRowsMatched(doc: Document, table: seq<Entry>, k1: int, k2: int) returns (i: int, j: int)
    requires 0 <= k1 < |table| && 0 <= k2 < |table| && table[k1] != table[k2]
    requires Mentions(doc, table[k1].needle) && Mentions(doc, table[k2].needle)
    ensures 0 <= i < j < |MatchedEntries(doc, table)|
    ensures var m := MatchedEntries(doc, table);
              (m[i] == table[k1] && m[j] == table[k2]) || (m[i] == table[k2] && m[j] == table[k1])
  {
    i := MatchedIndex(doc, table, k1);
    j := MatchedIndex(doc, table, k2);
    if j < i {
      i, j := j, i;
    }
  }

  /** The table row a matched entry comes from. */
  lemma MatchedRow(doc: Document, table: seq<Entry>, k: int) returns (i: int)
    requires 0 <= k < |MatchedEntries(doc, table)|
    ensures 0 <= i < |table| && table[i] == MatchedEntries(doc, table)[k]
  {
    var m := MatchedEntries(doc, table);
    assert m[k] in table;
    i :| 0 <= i < |table| && table[i] == m[k];
  }

  /** The snippet UT-alumni and VC-partnership records carry: the matching
      node's parent text, or the needle itself when no node matches or the node
      has no parent, cut to the snippet length. */
  function ParentSnippet(doc: Document, needle: string): (r: string)
    ensures |r| <= SnippetChars
    ensures FirstNodeWith(doc, needle).None? ==> r == Take(needle, SnippetChars)
    ensures var node := FirstNodeWith(doc, needle);
              node.Some? && doc[node.value].parentText.Some? ==> IsPrefix(r, doc[node.value].parentText.value)
    ensures var node := FirstNodeWith(doc, needle);
              && (node.Some? && doc[node.value].parentText.Some? ==> r == Take(doc[node.value].parentText.value, SnippetChars))
              && (node.Some? && doc[node.value].parentText.None? ==> r == Take(needle, SnippetChars))
  {
    var node := FirstNodeWith(doc, needle);
    var source := if node.Some? && doc[node.value].parentText.Some? then doc[node.value].parentText.value else needle;
    Take(source, SnippetChars)
  }

  /** A needle that is not split across nodes is found by both searches: a node
      whose own text contains it (with non-blank ends) makes the page text
      contain it too. */
  lemma {:induction false} NodeMatchIsPageMatch(doc: Document, needle: string, i: int)
    requires 0 <= i < |doc| && NodeHas(doc[i], needle)
    requires |needle| > 0 && !IsSpace(needle[0]) && !IsSpace(needle[|needle| - 1])
    requires forall k :: 0 <= k < |needle| ==> LowerChar(needle[k]) == needle[k]
    ensures Mentions(doc, needle)
  {
    var t := Strip(doc[i].text);
    StrippedNodeOccurs(doc[i].text, needle);
    var parts := Filter(NonEmpty, StrippedTexts(doc));
    assert StrippedTexts(doc)[i] == t;
    assert t in parts;
    var j :| 0 <= j < |parts| && parts[j] == t;
    OccursInJoinedPart(parts, " ", j, needle);
    LowerJoin(parts, " ");
  }

  /** The stripped node text still holds the (lower-case, non-blank-ended) needle. */
  lemma StrippedNodeOccurs(text: string, needle: string)
    requires Contains(Lower(text), Lower(needle))
    requires |needle| > 0 && !IsSpace(needle[0]) && !IsSpace(needle[|needle| - 1])
    requires forall k :: 0 <= k < |needle| ==> LowerChar(needle[k]) == needle[k]
    ensures Occurs(Lower(Strip(text)), needle) && Strip(text) != "" && Lower(needle) == needle
  {
    assert Lower(needle) == needle;
    LowerStrip(text);
    OccursSurvivesStrip(Lower(text), needle);
  }

  /** Lower-casing commutes with stripping (ASCII lower-casing never creates or
      removes whitespace). */
  lemma LowerStrip(s: string)
    ensures Lower(Strip(s)) == Strip(Lower(s))
  {
    var a := LeadingSpaces(s);
    var t := s[a..];
    var b := TrailingSpaces(t);
    LeadingSpacesLower(s);
    LowerSuffix(s, a);
    TrailingSpacesLower(t);
    LowerPrefix(t, |t| - b);
  }

  lemma {:induction false} LeadingSpacesLower(s: string)
    ensures LeadingSpaces(Lower(s)) == LeadingSpaces(s)
    decreases |s|
  {
    if |s| > 0 {
      LowerSuffix(s, 1);
      SpaceLower(s[0]);
      LeadingSpacesLower(s[1..]);
    }
  }

  lemma {:induction false} TrailingSpacesLower(s: string)
    ensures TrailingSpaces(Lower(s)) == TrailingSpaces(s)
    decreases |s|
  {
    if |s| > 0 {
      var p := s[..|s| - 1];
      LowerPrefix(s, |s| - 1);
      SpaceLower(s[|s| - 1]);
      TrailingSpacesLower(p);
    }
  }

  /** ASCII lower-casing neither creates nor removes whitespace. */
  lemma SpaceLower(c: char)
    ensures IsSpace(LowerChar(c)) == IsSpace(c)
  {
  }

  /** An occurrence inside one part is an occurrence in the joined text. */
  lemma {:induction false} OccursInJoinedPart(parts: seq<string>, sep: string, j: int, needle: string)
    requires 0 <= j < |parts| && Occurs(Lower(parts[j]), needle)
    ensures Occurs(JoinWith(LowerAll(parts), sep), needle)
    decreases |parts|
  {
    var lp := LowerAll(parts);
    if |parts| == 1 {
      assert JoinWith(lp, sep) == lp[0];
    } else if j == 0 {
      assert JoinWith(lp, sep) == lp[0] + sep + JoinWith(lp[1..], sep);
      OccursInMiddle("", lp[0], sep + JoinWith(lp[1..], sep), needle);
      assert "" + lp[0] + (sep + JoinWith(lp[1..], sep)) == JoinWith(lp, sep);
    } else {
      OccursInJoinedPart(parts[1..], sep, j - 1, needle);
      assert LowerAll(parts[1..]) == lp[1..];
      assert JoinWith(lp, sep) == lp[0] + sep + JoinWith(lp[1..], sep);
      OccursInMiddle(lp[0] + sep, JoinWith(lp[1..], sep), "", needle);
      assert lp[0] + sep + JoinWith(lp[1..], sep) + "" == JoinWith(lp, sep);
    }
  }
}
