/** Big-tech partnership signals (`extract_signals_from_html`): which of a fixed
    list of programme keywords a company page mentions, each with a snippet of
    surrounding text. */
module BigTechSignals {
  import opened Wrappers
  import opened Seqs
  import opened Text
  import opened KeywordMatch

  /** The keyword table, in the order records are emitted. */
  const Keywords: seq<Entry> := [
    Entry("University Relations", "University Relations"),
    Entry("University Recruiting", "University Recruiting"),
    Entry("Academic Partnerships", "Academic Partnerships"),
    Entry("Developer Relations", "Developer Relations"),
    Entry("DevRel", "Developer Relations"),
    Entry("Research", "Research"),
    Entry("AI/ML", "AI/ML"),
    Entry("Education", "Education"),
    Entry("Campus", "Campus"),
    Entry("Hackathon", "Hackathon"),
    Entry("Fellowship", "Fellowship"),
    Entry("Internship", "Internship"),
    Entry("RFP", "RFP"),
    Entry("Call for Proposals", "RFP")
  ]

  const HtmlSource := "html"

  /** One emitted signal. */
  datatype Signal = Signal(url: string, signalType: string, snippet: string, source: string)

  /** `_find_snippet(soup, needle)`: the first node containing the needle gives
      its parent's text, or its own stripped text when it has no parent, cut to
      the snippet length; no such node gives nothing. */
  function FindSnippet(doc: Document, needle: string): (r: Option<string>)
    ensures r.None? <==> FirstNodeWith(doc, needle).None?
    ensures r.Some? ==> |r.value| <= SnippetChars
    ensures r.Some? ==> var node := doc[FirstNodeWith(doc, needle).value];
              && (node.parentText.Some? ==> r.value == Take(node.parentText.value, SnippetChars))
              && (node.parentText.None? ==> r.value == Take(Strip(node.text), SnippetChars))
  {
    match FirstNodeWith(doc, needle)
    case None => None
    case Some(i) =>
      if doc[i].parentText.None? then Some(Take(Strip(doc[i].text), SnippetChars))
      else Some(Take(doc[i].parentText.value, SnippetChars))
  }

  /** `snippet or needle`. */
  function SnippetFor(doc: Document, needle: string): string {
    var s := FindSnippet(doc, needle);
    if s.Some? && s.value != "" then s.value else needle
  }

  /** `extract_signals_from_html(html, url)`: one record per table row whose
      needle the page text mentions, in table order. */
  function ExtractSignals(doc: Document, url: string): (r: seq<Signal>)
    ensures var m := MatchedEntries(doc, Keywords);
              |r| == |m| && forall k :: 0 <= k < |r| ==> r[k].signalType == m[k].category
    ensures |r| <= |Keywords|
    ensures forall k :: 0 <= k < |r| ==> r[k].url == url && r[k].source == HtmlSource
    ensures var m := MatchedEntries(doc, Keywords);
              |r| == |m| && forall k :: 0 <= k < |r| ==>
                var s := FindSnippet(doc, m[k].needle);
                r[k].snippet == (if s.Some? && s.value != "" then s.value else m[k].needle)
  {
    var m := MatchedEntries(doc, Keywords);
    seq(|m|, k requires 0 <= k < |m| => Signal(url, m[k].category, SnippetFor(doc, m[k].needle), HtmlSource))
  }

  /** Every table needle is non-empty and shorter than a snippet. */
  lemma NeedlesFit(k: int)
    requires 0 <= k < |Keywords|
    ensures 0 < |Keywords[k].needle| <= SnippetChars
  {
  }

  /** Every snippet is non-empty and at most 240 characters; a needle not found
      inside any single node (for instance split across two) is its own snippet. */
  lemma SnippetsBounded(doc: Document, url: string, k: int)
    requires 0 <= k < |ExtractSignals(doc, url)|
    ensures var m := MatchedEntries(doc, Keywords);
              var s := ExtractSignals(doc, url)[k].snippet;
              0 < |s| <= SnippetChars
              && (FirstNodeWith(doc, m[k].needle).None? ==> s == m[k].needle)
  {
    var j := MatchedRow(doc, Keywords, k);
    NeedlesFit(j);
  }

  /** A record's snippet is the first 240 characters of the matching node's
      parent text, or of the node's own stripped text when it has no parent; the
      needle stands in when no node matches or that text is empty. */
  lemma SnippetFromNode(doc: Document, url: string, k: int)
    requires 0 <= k < |ExtractSignals(doc, url)|
    ensures var m := MatchedEntries(doc, Keywords);
              var s := ExtractSignals(doc, url)[k].snippet;
              var node := FirstNodeWith(doc, m[k].needle);
              var text := if node.None? then "" else if doc[node.value].parentText.Some?
                          then Take(doc[node.value].parentText.value, SnippetChars)
                          else Take(Strip(doc[node.value].text), SnippetChars);
              s == (if text != "" then text else m[k].needle)
  {
    var m := MatchedEntries(doc, Keywords);
    assert ExtractSignals(doc, url)[k].snippet == SnippetFor(doc, m[k].needle);
    SnippetForNode(doc, m[k].needle);
  }

  /** `snippet or needle` in terms of the first matching node. */
  lemma SnippetForNode(doc: Document, needle: string)
    ensures var node := FirstNodeWith(doc, needle);
            var text := if node.None? then "" else if doc[node.value].parentText.Some?
                        then Take(doc[node.value].parentText.value, SnippetChars)
                        else Take(Strip(doc[node.value].text), SnippetChars);
            SnippetFor(doc, needle) == (if text != "" then text else needle)
  {
  }

  /** A page mentioning both "DevRel" and "Developer Relations" gets two
      "Developer Relations" records: signal types can repeat. */
  lemma DevRelReported(doc: Document, url: string)
    requires Mentions(doc, "Developer Relations") && Mentions(doc, "DevRel")
    ensures exists i, j :: 0 <= i < j < |ExtractSignals(doc, url)|
              && ExtractSignals(doc, url)[i].signalType == "Developer Relations"
              && ExtractSignals(doc, url)[j].signalType == "Developer Relations"
  {
    assert Keywords[3].needle == "Developer Relations" && Keywords[4].needle == "DevRel";
    assert Keywords[3].category == Keywords[4].category == "Developer Relations";
    var i, j := TwoRowsMatched(doc, Keywords, 3, 4);
    var r := ExtractSignals(doc, url);
    assert r[i].signalType == "Developer Relations";
    assert r[j].signalType == "Developer Relations";
  }
}
