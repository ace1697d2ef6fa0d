/** Partnership-programme signals on a portfolio company's site
    (`extract_partnership_signals`): which of a fixed list of keywords a page
    mentions, each typed and with a snippet of the surrounding element's text. */
module VcSignals {
  import opened Wrappers
  import opened Seqs
  import opened Text
  import opened KeywordMatch

  /** The keyword table, in the order records are emitted. */
  const Keywords: seq<Entry> := [
    Entry("Partners", "Partners"),
    Entry("University Programs", "University Programs"),
    Entry("Community", "Community"),
    Entry("Open Innovation", "Open Innovation"),
    Entry("Research", "Research"),
    Entry("DevRel", "Developer Relations"),
    Entry("Developer Relations", "Developer Relations"),
    Entry("Hackathon", "Hackathon"),
    Entry("Campus", "Campus"),
    Entry("Case Studies", "Case Studies")
  ]

  /** Every needle fits in a snippet, and every row but "DevRel" reports its own
      needle as the signal type. */
  lemma TableRow(k: int)
    requires 0 <= k < |Keywords|
    ensures |Keywords[k].needle| <= SnippetChars
    ensures (Keywords[k].category != Keywords[k].needle ==> Keywords[k].needle == "DevRel")
  {
  }

  /** One emitted signal. */
  datatype PartnershipSignal = PartnershipSignal(companyDomain: string, url: string, signalType: string, snippet: string)

  /** `extract_partnership_signals(html, url, company_domain)`: one record per
      table row whose needle the page text mentions, in table order. */
  function ExtractPartnershipSignals(doc: Document, url: string, companyDomain: string): (r: seq<PartnershipSignal>)
    ensures var m := MatchedEntries(doc, Keywords);
              |r| == |m| && forall k :: 0 <= k < |r| ==> r[k].signalType == m[k].category
    ensures |r| <= |Keywords|
    ensures forall k :: 0 <= k < |r| ==>
              r[k].companyDomain == companyDomain && r[k].url == url && |r[k].snippet| <= SnippetChars
    ensures var m := MatchedEntries(doc, Keywords);
              |r| == |m| && forall k :: 0 <= k < |r| ==> r[k].snippet == ParentSnippet(doc, m[k].needle)
  {
    var m := MatchedEntries(doc, Keywords);
    seq(|m|, k requires 0 <= k < |m| =>
      PartnershipSignal(companyDomain, url, m[k].category, ParentSnippet(doc, m[k].needle)))
  }

  /** A needle no single node contains is its own snippet. */
  lemma SnippetFallsBackToNeedle(doc: Document, url: string, companyDomain: string, k: int)
    requires 0 <= k < |ExtractPartnershipSignals(doc, url, companyDomain)|
    requires FirstNodeWith(doc, MatchedEntries(doc, Keywords)[k].needle).None?
    ensures ExtractPartnershipSignals(doc, url, companyDomain)[k].snippet == MatchedEntries(doc, Keywords)[k].needle
  {
    var i := MatchedRow(doc, Keywords, k);
    TableRow(i);
  }

  /** A matched row's snippet is the first 240 characters of the matching node's
      parent text, or the needle itself when the matching node has no parent. */
  lemma SnippetFromParent(doc: Document, url: string, companyDomain: string, k: int)
    requires 0 <= k < |ExtractPartnershipSignals(doc, url, companyDomain)|
    ensures var m := MatchedEntries(doc, Keywords);
              var s := ExtractPartnershipSignals(doc, url, companyDomain)[k].snippet;
              var node := FirstNodeWith(doc, m[k].needle);
              && (node.Some? && doc[node.value].parentText.Some? ==> s == Take(doc[node.value].parentText.value, SnippetChars))
              && (node.Some? && doc[node.value].parentText.None? ==> s == m[k].needle)
  {
    var i := MatchedRow(doc, Keywords, k);
    TableRow(i);
  }

  /** "DevRel" and "Developer Relations" both yield the type "Developer
      Relations", so a page mentioning both gets that type twice. */
  lemma DevRelReported(doc: Document, url: string, companyDomain: string)
    requires Mentions(doc, "DevRel") && Mentions(doc, "Developer Relations")
    ensures exists i, j :: 0 <= i < j < |ExtractPartnershipSignals(doc, url, companyDomain)|
              && ExtractPartnershipSignals(doc, url, companyDomain)[i].signalType == "Developer Relations"
              && ExtractPartnershipSignals(doc, url, companyDomain)[j].signalType == "Developer Relations"
  {
    assert Keywords[5].needle == "DevRel" && Keywords[6].needle == "Developer Relations";
    assert Keywords[5].category == Keywords[6].category == "Developer Relations";
    var i, j := TwoRowsMatched(doc, Keywords, 5, 6);
    var r := ExtractPartnershipSignals(doc, url, companyDomain);
    assert r[i].signalType == "Developer Relations";
    assert r[j].signalType == "Developer Relations";
  }
}
