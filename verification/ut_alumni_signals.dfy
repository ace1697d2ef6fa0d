/** University alumni and donor signals (`extract_donor_signals`): which of a
    fixed list of giving-related keywords a page mentions, each tagged and with
    a snippet of the surrounding element's text. */
module UtAlumniSignals {
  import opened Wrappers
  import opened Seqs
  import opened Text
  import opened KeywordMatch

  /** The keyword table, in the order records are emitted. */
  const Keywords: seq<Entry> := [
    Entry("Alumni", "UT Alumni"),
    Entry("Donor", "Donor"),
    Entry("Endowment", "Endowment"),
    Entry("Gift", "Gift"),
    Entry("Philanthropy", "Philanthropy"),
    Entry("Sponsorship", "Sponsorship"),
    Entry("Foundation", "Foundation"),
    Entry("Advisory", "Advisory"),
    Entry("Board", "Board")
  ]

  /** Every needle fits in a snippet, and every row but "Alumni" is tagged with
      its own needle. */
  lemma TableRow(k: int)
    requires 0 <= k < |Keywords|
    ensures |Keywords[k].needle| <= SnippetChars
    ensures (k > 0 ==> Keywords[k].category == Keywords[k].needle)
  {
  }

  /** One emitted signal: exactly the three fields the source's record has. */
  datatype DonorSignal = DonorSignal(url: string, snippet: string, tag: string)

  /** `extract_donor_signals(html, url)`: one record per table row whose needle
      the page text mentions, in table order, tagged with the row's category. */
  function ExtractDonorSignals(doc: Document, url: string): (r: seq<DonorSignal>)
    ensures var m := MatchedEntries(doc, Keywords);
              |r| == |m| && forall k :: 0 <= k < |r| ==> r[k].tag == m[k].category
    ensures |r| <= |Keywords|
    ensures forall k :: 0 <= k < |r| ==> r[k].url == url && |r[k].snippet| <= SnippetChars
    ensures var m := MatchedEntries(doc, Keywords);
              |r| == |m| && forall k :: 0 <= k < |r| ==> r[k].snippet == ParentSnippet(doc, m[k].needle)
  {
    var m := MatchedEntries(doc, Keywords);
    seq(|m|, k requires 0 <= k < |m| => DonorSignal(url, ParentSnippet(doc, m[k].needle), m[k].category))
  }

  /** A snippet is the first 240 characters of the matching node's parent text
      (so it need not contain the needle), or the needle itself when no single
      node contains it or the matching node has no parent. */
  lemma SnippetSource(doc: Document, url: string, k: int)
    requires 0 <= k < |ExtractDonorSignals(doc, url)|
    ensures var m := MatchedEntries(doc, Keywords);
              var s := ExtractDonorSignals(doc, url)[k].snippet;
              var node := FirstNodeWith(doc, m[k].needle);
              && (node.None? ==> s == m[k].needle)
              && (node.Some? && doc[node.value].parentText.Some? ==> IsPrefix(s, doc[node.value].parentText.value))
              && (node.Some? && doc[node.value].parentText.Some? ==> s == Take(doc[node.value].parentText.value, SnippetChars))
              && (node.Some? && doc[node.value].parentText.None? ==> s == m[k].needle)
  {
    var i := MatchedRow(doc, Keywords, k);
    TableRow(i);
  }

  /** The needle "Alumni" is reported under the tag "UT Alumni". */
  lemma AlumniTagged(doc: Document, url: string)
    requires Mentions(doc, "Alumni")
    ensures exists k :: 0 <= k < |ExtractDonorSignals(doc, url)| && ExtractDonorSignals(doc, url)[k].tag == "UT Alumni"
  {
    assert Keywords[0] == Entry("Alumni", "UT Alumni");
    var i := MatchedIndex(doc, Keywords, 0);
    assert ExtractDonorSignals(doc, url)[i].tag == "UT Alumni";
  }
}
