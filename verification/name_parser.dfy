/** The people-extraction step of the generic crawl flow
    (`extract_names_with_llm`): for each crawled page the cleaned text is sent
    to the language model twice, once for the company name and once for a
    `Name:` / `Role:` listing, and the listing is parsed line by line into
    person records. The model calls are parameters (`askCompany`, `askNames`)
    that map the page text embedded in each prompt to the raw reply. */
module NameParser {
  import opened Wrappers
  import opened Seqs
  import opened Text
  import Cleaner

  const NotSpecified := "Not specified"

  /** Signal label used when the user gave no focus signals. */
  const GeneralSignal := "General"

  /** Pages (and cleaned texts) shorter than this are skipped. */
  const MinPageChars := 50

  /** Characters of cleaned text shown in the company-name prompt. */
  const CompanyPromptChars: nat := 1000

  // ---------------------------------------------------------------------------
  // Line classification

  /** The value part of a `Key: value` line: everything after the first colon,
      stripped, with markdown emphasis stars removed, stripped again. */
  function FieldValue(line: string): string {
    Strip(Unstar(Strip(AfterFirst(line, ':'))))
  }

  /** A name is accepted when it is longer than two characters and has at least
      two whitespace-separated words. */
  predicate ValidName(n: string) {
    |n| > 2 && WordCount(n) >= 2
  }

  /** A role overwrites the current one unless it is empty or says "not specified". */
  predicate UsableRole(r: string) {
    r != "" && Lower(r) != "not specified"
  }

  /** The line mentions `name:` in any letter case. */
  predicate IsNameLine(line: string) {
    Contains(Lower(Strip(line)), "name:")
  }

  /** The line mentions `role:` or `title:` and is not a name line. */
  predicate IsRoleLine(line: string) {
    var low := Lower(Strip(line));
    !IsNameLine(line) && (Contains(low, "role:") || Contains(low, "title:"))
  }

  // ---------------------------------------------------------------------------
  // The state machine

  /** The parser's state: the person being collected (if any), that person's
      role so far, and the (name, role) pairs already emitted. */
  datatype Pending = Pending(current: Option<string>, role: string, found: seq<(string, string)>)

  const Start := Pending(None, NotSpecified, [])

  /** One line. A name line first emits the person being collected; it then
      starts a new person only if its value is a valid name, so after an
      invalid name line the previous person stays current. A role line
      replaces the role unless its value is empty or "not specified". */
  function Step(p: Pending, line: string): Pending {
    var l := Strip(line);
    if IsNameLine(line) then
      var emitted := if p.current.Some? then p.found + [(p.current.value, p.role)] else p.found;
      var n := FieldValue(l);
      if ValidName(n) then Pending(Some(n), NotSpecified, emitted)
      else Pending(p.current, p.role, emitted)
    else if IsRoleLine(line) then
      var r := FieldValue(l);
      if UsableRole(r) then Pending(p.current, r, p.found) else p
    else p
  }

  function Fold(p: Pending, lines: seq<string>): Pending
    decreases |lines|
  {
    if |lines| == 0 then p else Fold(Step(p, lines[0]), lines[1..])
  }

  /** After the last line the person being collected is emitted too. */
  function Finish(p: Pending): seq<(string, string)> {
    if p.current.Some? then p.found + [(p.current.value, p.role)] else p.found
  }

  /** The parsed (name, role) pairs of one reply; a reply that says "no names
      found" anywhere, in any letter case, yields nothing. */
  function ParseNames(reply: string): (r: seq<(string, string)>)
    ensures Contains(Lower(reply), "no names found") ==> r == []
    ensures forall k :: 0 <= k < |r| ==> WellFormed(r[k])
  {
    if Contains(Lower(reply), "no names found") then []
    else
      FoldGood(Start, Split(Strip(reply), '\n'));
      Finish(Fold(Start, Split(Strip(reply), '\n')))
  }

  // ---------------------------------------------------------------------------
  // Properties of the parser

  /** An emitted pair: a valid name, and either the default role or a usable one. */
  predicate WellFormed(pair: (string, string)) {
    ValidName(pair.0) && (pair.1 == NotSpecified || UsableRole(pair.1))
  }

  predicate Good(p: Pending) {
    && (forall k :: 0 <= k < |p.found| ==> WellFormed(p.found[k]))
    && (p.current.Some? ==> ValidName(p.current.value))
    && (p.role == NotSpecified || UsableRole(p.role))
  }

  lemma StepGood(p: Pending, line: string)
    requires Good(p)
    ensures Good(Step(p, line))
  {
  }

  lemma {:induction false} FoldGood(p: Pending, lines: seq<string>)
    requires Good(p)
    ensures Good(Fold(p, lines))
    decreases |lines|
  {
    if |lines| > 0 {
      StepGood(p, lines[0]);
      FoldGood(Step(p, lines[0]), lines[1..]);
    }
  }

  /** Every parsed pair has an accepted name and a role that is either the
      default or a real one. */
  lemma ParsedPairsWellFormed(reply: string)
    ensures forall k :: 0 <= k < |ParseNames(reply)| ==> WellFormed(ParseNames(reply)[k])
  {
    if !Contains(Lower(reply), "no names found") {
      FoldGood(Start, Split(Strip(reply), '\n'));
    }
  }

  /** A reply that says "no names found" yields no pairs, whatever else it holds. */
  lemma NoNamesFoundYieldsNothing(reply: string)
    requires Occurs(Lower(reply), "no names found")
    ensures ParseNames(reply) == []
  {
  }

  /** Emitted plus pending persons never outnumber the name lines read so far. */
  function Weight(p: Pending): nat {
    |p.found| + (if p.current.Some? then 1 else 0)
  }

  lemma {:induction false} FoldWeight(p: Pending, lines: seq<string>)
    ensures Weight(Fold(p, lines)) <= Weight(p) + Count(IsNameLine, lines)
    decreases |lines|
  {
    if |lines| > 0 {
      FoldWeight(Step(p, lines[0]), lines[1..]);
    }
  }

  /** At most one pair per `name:` line of the reply. */
  lemma AtMostOnePairPerNameLine(reply: string)
    ensures |ParseNames(reply)| <= Count(IsNameLine, Split(Strip(reply), '\n'))
  {
    FoldWeight(Start, Split(Strip(reply), '\n'));
  }

  /** A name line whose value is not a valid name does not replace the person
      being collected: that person is emitted at the name line and again at the
      end, so the same pair appears twice. */
  lemma InvalidNameLineRepeatsPerson(p: Pending, line: string)
    requires p.current.Some?
    requires IsNameLine(line) && !ValidName(FieldValue(Strip(line)))
    ensures Step(p, line).current == p.current && Step(p, line).role == p.role
    ensures Finish(Step(p, line)) == p.found + [(p.current.value, p.role), (p.current.value, p.role)]
  {
  }

  /** A role line saying "Not specified" (in any letter case) never overwrites a
      role already found, and neither does an empty one. */
  lemma UnusableRoleLeavesState(p: Pending, line: string)
    requires IsRoleLine(line) && !UsableRole(FieldValue(Strip(line)))
    ensures Step(p, line) == p
  {
  }

  /** Lines that are neither name nor role lines are ignored. */
  lemma OtherLinesIgnored(p: Pending, line: string)
    requires !IsNameLine(line) && !IsRoleLine(line)
    ensures Step(p, line) == p
  {
  }

  // ---------------------------------------------------------------------------
  // The listing the names prompt asks for

  /** A pair the model can write back in the requested format: a valid name and a
      role that is the default or a usable one, each stripped, on one line and
      free of `*`; the role also free of `:`. */
  predicate Listable(pair: (string, string)) {
    && ValidName(pair.0) && IsStripped(pair.0) && '*' !in pair.0 && '\n' !in pair.0
    && (pair.1 == NotSpecified || UsableRole(pair.1))
    && IsStripped(pair.1) && '*' !in pair.1 && '\n' !in pair.1 && ':' !in pair.1
  }

  /** The reply lines the prompt requests: `Name: n` then `Role: r`, per person. */
  function Listing(pairs: seq<(string, string)>): (lines: seq<string>)
    ensures |lines| == 2 * |pairs|
    decreases |pairs|
  {
    if |pairs| == 0 then [] else ["Name: " + pairs[0].0, "Role: " + pairs[0].1] + Listing(pairs[1..])
  }

  /** The value of `key: v` is `v` when the key has no colon and `v` is stripped
      and free of stars. */
  lemma FieldValueOf(key: string, v: string)
    requires ':' !in key && IsStripped(v) && '*' !in v
    ensures FieldValue(key + ": " + v) == v
  {
    var line := key + ": " + v;
    var n := FirstIndex(line, ':');
    assert forall m :: 0 <= m < |key| ==> line[m] == key[m];
    assert forall m :: 0 <= m < n ==> line[..n][m] == line[m];
    assert line[|key|] == ':';
    assert n == |key|;
    assert AfterFirst(line, ':') == " " + v;
    StripLeadingBlank(v);
    UnstarIsWithout(v);
    WithoutAbsent(v, '*');
    StripOfStripped(v);
  }

  /** A `Name: n` line is a name line, already stripped, whose value is `n`. */
  lemma NameLineFacts(n: string)
    requires IsStripped(n) && '*' !in n && |n| > 0
    ensures Strip("Name: " + n) == "Name: " + n
    ensures IsNameLine("Name: " + n)
    ensures FieldValue("Name: " + n) == n
  {
    assert "Name" + ": " + n == "Name: " + n;
    KeyLineStripped("Name", n);
    NameLineIsNameLine(n);
    FieldValueOf("Name", n);
  }

  /** `key: v` is already stripped when `key` starts with a non-blank. */
  lemma KeyLineStripped(key: string, v: string)
    requires |key| > 0 && !IsSpace(key[0]) && IsStripped(v) && |v| > 0
    ensures Strip(key + ": " + v) == key + ": " + v
  {
    var line := key + ": " + v;
    assert line[0] == key[0] && line[|line| - 1] == v[|v| - 1];
    StripOfStripped(line);
  }

  lemma NameLineIsNameLine(n: string)
    requires Strip("Name: " + n) == "Name: " + n
    ensures IsNameLine("Name: " + n)
  {
    var h := Lower("Name: " + n);
    assert h[..5] == "name:";
    assert OccursAt(h, "name:", 0);
  }

  /** A `Name: n` line for a listable name emits the person being collected and
      starts collecting `n` with the default role. */
  lemma NameLineStep(p: Pending, n: string)
    requires ValidName(n) && IsStripped(n) && '*' !in n
    ensures Step(p, "Name: " + n) == Pending(Some(n), NotSpecified, Finish(p))
  {
    NameLineFacts(n);
  }

  /** A `Role: r` line, for a role without colons, is a role line and not a name
      line, already stripped, whose value is `r`. */
  lemma RoleLineFacts(r: string)
    requires IsStripped(r) && '*' !in r && ':' !in r && |r| > 0
    ensures Strip("Role: " + r) == "Role: " + r
    ensures !IsNameLine("Role: " + r) && IsRoleLine("Role: " + r)
    ensures FieldValue("Role: " + r) == r
  {
    assert "Role" + ": " + r == "Role: " + r;
    KeyLineStripped("Role", r);
    RoleLineIsRoleLine(r);
    FieldValueOf("Role", r);
  }

  lemma RoleLineIsRoleLine(r: string)
    requires Strip("Role: " + r) == "Role: " + r && ':' !in r
    ensures !IsNameLine("Role: " + r) && IsRoleLine("Role: " + r)
  {
    var line := "Role: " + r;
    var h := Lower(line);
    forall i: nat | i + 5 <= |h|
      ensures !OccursAt(h, "name:", i)
    {
      assert h[i..i + 5][0] == h[i] && h[i..i + 5][4] == h[i + 4];
      if i > 0 {
        assert h[i + 4] != ':';
      }
    }
    assert h[..5] == "role:";
    assert OccursAt(h, "role:", 0);
  }

  /** A `Role: r` line with a usable role replaces whatever role is current; a
      "Not specified" role line leaves the default role as it is. */
  lemma RoleLineStep(p: Pending, r: string)
    requires UsableRole(r) || (r == NotSpecified && p.role == NotSpecified)
    requires IsStripped(r) && '*' !in r && ':' !in r
    ensures Step(p, "Role: " + r) == Pending(p.current, r, p.found)
  {
    RoleLineFacts(r);
  }

  /** Reading a listing after state `p` emits what `p` would emit, then the listed pairs. */
  lemma {:induction false} FoldListing(p: Pending, pairs: seq<(string, string)>)
    requires forall k :: 0 <= k < |pairs| ==> Listable(pairs[k])
    ensures Finish(Fold(p, Listing(pairs))) == Finish(p) + pairs
    decreases |pairs|
  {
    if |pairs| == 0 {
      assert Finish(p) + pairs == Finish(p);
    } else {
      var q := ListedHead(p, pairs);
      FoldListing(q, pairs[1..]);
      FinishChain(Fold(p, Listing(pairs)), Fold(q, Listing(pairs[1..])), p, q, pairs);
    }
  }

  lemma FinishChain(x: Pending, y: Pending, p: Pending, q: Pending, pairs: seq<(string, string)>)
    requires |pairs| > 0 && x == y
    requires Finish(y) == Finish(q) + pairs[1..]
    requires Finish(q) == Finish(p) + [pairs[0]]
    ensures Finish(x) == Finish(p) + pairs
  {
    assert pairs == [pairs[0]] + pairs[1..];
  }

  /** The lines of the first listed pair collect exactly that pair. */
  lemma ListedHead(p: Pending, pairs: seq<(string, string)>) returns (q: Pending)
    requires |pairs| > 0 && Listable(pairs[0])
    ensures Fold(p, Listing(pairs)) == Fold(q, Listing(pairs[1..]))
    ensures Finish(q) == Finish(p) + [pairs[0]]
  {
    q := ListedPairStep(p, pairs[0], Listing(pairs[1..]));
  }

  /** The two lines of one listed pair collect exactly that pair. */
  lemma ListedPairStep(p: Pending, pair: (string, string), rest: seq<string>) returns (q: Pending)
    requires Listable(pair)
    ensures Fold(p, ["Name: " + pair.0, "Role: " + pair.1] + rest) == Fold(q, rest)
    ensures Finish(q) == Finish(p) + [pair]
  {
    var (n, r) := pair;
    NameLineStep(p, n);
    var q0 := Pending(Some(n), NotSpecified, Finish(p));
    RoleLineStep(q0, r);
    q := Pending(Some(n), r, Finish(p));
    FoldTwo(p, "Name: " + n, "Role: " + r, rest);
  }

  lemma FoldTwo(p: Pending, a: string, b: string, rest: seq<string>)
    ensures Fold(p, [a, b] + rest) == Fold(Step(Step(p, a), b), rest)
  {
    assert ([a, b] + rest)[0] == a && ([a, b] + rest)[1..] == [b] + rest;
    assert ([b] + rest)[0] == b && ([b] + rest)[1..] == rest;
  }

  /** The round trip: a reply written exactly in the requested format parses back
      to the listed pairs, in order, provided it does not say "no names found". */
  lemma ListingRoundTrip(pairs: seq<(string, string)>)
    requires forall k :: 0 <= k < |pairs| ==> Listable(pairs[k])
    requires !Occurs(Lower(JoinWith(Listing(pairs), "\n")), "no names found")
    ensures ParseNames(JoinWith(Listing(pairs), "\n")) == pairs
  {
    ListingFolds(pairs);
  }

  /** Past the "no names found" test, the lines of a joined listing fold back to its pairs. */
  lemma ListingFolds(pairs: seq<(string, string)>)
    requires forall k :: 0 <= k < |pairs| ==> Listable(pairs[k])
    ensures Finish(Fold(Start, Split(Strip(JoinWith(Listing(pairs), "\n")), '\n'))) == pairs
  {
    if |pairs| == 0 {
      assert pairs == [];
      EmptyReplyFolds();
    } else {
      NonEmptyListingFolds(pairs);
    }
  }

  lemma NonEmptyListingFolds(pairs: seq<(string, string)>)
    requires |pairs| > 0 && forall k :: 0 <= k < |pairs| ==> Listable(pairs[k])
    ensures Finish(Fold(Start, Split(Strip(JoinWith(Listing(pairs), "\n")), '\n'))) == pairs
  {
    ListingStripSplits(pairs);
    FoldListing(Start, pairs);
    assert Finish(Start) + pairs == pairs;
  }

  /** A non-empty joined listing is left alone by `strip` and splits back into its lines. */
  lemma ListingStripSplits(pairs: seq<(string, string)>)
    requires |pairs| > 0 && forall k :: 0 <= k < |pairs| ==> Listable(pairs[k])
    ensures Split(Strip(JoinWith(Listing(pairs), "\n")), '\n') == Listing(pairs)
  {
    ListingEnds(pairs);
    StripOfStripped(JoinWith(Listing(pairs), "\n"));
    ListingSplits(pairs);
  }

  lemma EmptyReplyFolds()
    ensures Finish(Fold(Start, Split(Strip(JoinWith(Listing([]), "\n")), '\n'))) == []
  {
    assert JoinWith(Listing([]), "\n") == "";
    StripOfStripped("");
    assert Split("", '\n') == [""];
    assert !IsNameLine("") && !IsRoleLine("");
  }

  /** A non-empty joined listing splits back into its lines. */
  lemma ListingSplits(pairs: seq<(string, string)>)
    requires |pairs| > 0 && forall k :: 0 <= k < |pairs| ==> Listable(pairs[k])
    ensures Split(JoinWith(Listing(pairs), "\n"), '\n') == Listing(pairs)
  {
    ListingLines(pairs);
    SplitJoin(Listing(pairs), '\n');
  }

  /** No line of a listing holds a line break. */
  lemma {:induction false} ListingLines(pairs: seq<(string, string)>)
    requires forall k :: 0 <= k < |pairs| ==> Listable(pairs[k])
    ensures forall k :: 0 <= k < |Listing(pairs)| ==> '\n' !in Listing(pairs)[k]
    decreases |pairs|
  {
    if |pairs| > 0 {
      ListingLines(pairs[1..]);
      var lines := Listing(pairs);
      assert '\n' !in "Name: " + pairs[0].0;
      assert '\n' !in "Role: " + pairs[0].1;
      assert forall k :: 2 <= k < |lines| ==> lines[k] == Listing(pairs[1..])[k - 2];
    }
  }

  /** A joined listing is already stripped: it starts with `N` and ends with a role. */
  lemma {:induction false} ListingEnds(pairs: seq<(string, string)>)
    requires forall k :: 0 <= k < |pairs| ==> Listable(pairs[k])
    ensures IsStripped(JoinWith(Listing(pairs), "\n"))
    ensures |pairs| > 0 ==> var s := JoinWith(Listing(pairs), "\n"); |s| > 0 && s[0] == 'N' && !IsSpace(s[|s| - 1])
    decreases |pairs|
  {
    if |pairs| > 0 {
      var rest := pairs[1..];
      var role := "Role: " + pairs[0].1;
      assert |pairs[0].1| > 0;
      ListingEnds(rest);
      var tail := if |rest| == 0 then role else role + "\n" + JoinWith(Listing(rest), "\n");
      assert JoinWith(Listing(pairs), "\n") == "Name: " + pairs[0].0 + "\n" + tail by {
        var lines := Listing(pairs);
        assert lines[1..] == [role] + Listing(rest);
        if |rest| > 0 {
          assert ([role] + Listing(rest))[1..] == Listing(rest);
        }
      }
    }
  }

  // ---------------------------------------------------------------------------
  // Company name

  /** `url.split('/')[2]`, which raises for a URL with fewer than two slashes. */
  function HostPart(url: string): (r: Result<string, string>)
    ensures r.Success? <==> |Split(url, '/')| >= 3
    ensures r.Success? ==> '/' !in r.value
  {
    var parts := Split(url, '/');
    if |parts| < 3 then Failure("IndexError: list index out of range") else Success(parts[2])
  }

  /** For `scheme://host/...` the fallback is exactly the host. */
  lemma {:induction false} HostPartOfUrl(scheme: string, host: string, path: string)
    requires '/' !in scheme && '/' !in host
    requires path == "" || path[0] == '/'
    ensures HostPart(scheme + "//" + host + path) == Success(host)
  {
    var url := scheme + "//" + host + path;
    assert url == scheme + ['/'] + ("/" + host + path);
    SplitConcat(scheme, "/" + host + path, '/');
    assert "/" + host + path == "" + ['/'] + (host + path);
    SplitConcat("", host + path, '/');
    SplitNoSeparator(scheme, '/');
    if path == "" {
      assert host + path == host;
      SplitNoSeparator(host, '/');
    } else {
      assert host + path == host + ['/'] + path[1..];
      SplitConcat(host, path[1..], '/');
      SplitNoSeparator(host, '/');
    }
  }

  /** The company name: the model's answer, stripped and with `*` removed; if the
      answer mentions "unknown" in any case, the host part of the page URL
      instead, and an error when the URL has no host part. */
  function CompanyName(reply: string, url: string): (r: Result<string, string>)
    ensures r.Failure? ==> Contains(Lower(Unstar(Strip(reply))), "unknown") && |Split(url, '/')| < 3
    ensures r.Success? ==> '*' !in r.value || '/' !in r.value
  {
    var answer := Unstar(Strip(reply));
    UnstarIsWithout(Strip(reply));
    if Contains(Lower(answer), "unknown") then HostPart(url) else Success(answer)
  }

  /** A usable answer is taken as given, with its emphasis stars gone. */
  lemma CompanyNameFromAnswer(reply: string, url: string)
    requires !Occurs(Lower(Unstar(Strip(reply))), "unknown")
    ensures CompanyName(reply, url) == Success(Without(Strip(reply), '*'))
  {
    UnstarIsWithout(Strip(reply));
  }

  /** An "Unknown" answer on a `scheme://host/...` page falls back to the host. */
  lemma CompanyNameFallsBackToHost(reply: string, scheme: string, host: string, path: string)
    requires Occurs(Lower(Unstar(Strip(reply))), "unknown")
    requires '/' !in scheme && '/' !in host
    requires path == "" || path[0] == '/'
    ensures CompanyName(reply, scheme + "//" + host + path) == Success(host)
  {
    HostPartOfUrl(scheme, host, path);
  }

  // ---------------------------------------------------------------------------
  // Pages and records

  /** A crawled page as the crawler hands it over; either field may be missing. */
  datatype Page = Page(url: Option<string>, markdown: Option<string>)

  /** One output row. */
  datatype Person = Person(name: string, role: string, signal: string, company: string, sourceUrl: string)

  function PageUrl(page: Page): string {
    if page.url.Some? then page.url.value else "unknown"
  }

  function SignalLabel(signals: string): string {
    if signals == "" then GeneralSignal else signals
  }

  function ToPeople(pairs: seq<(string, string)>, signal: string, company: string, url: string): (r: seq<Person>)
    ensures |r| == |pairs|
    ensures forall k :: 0 <= k < |r| ==>
              r[k] == Person(pairs[k].0, pairs[k].1, signal, company, url)
  {
    seq(|pairs|, k requires 0 <= k < |pairs| => Person(pairs[k].0, pairs[k].1, signal, company, url))
  }

  /** The records one page contributes. Missing or short markdown, or a cleaned
      text that is too short, skips the page; so does a failed company-name
      fallback, which raises inside the page's `try` block. */
  function PageRecords(page: Page, signals: string, askCompany: string -> string, askNames: string -> string): (r: seq<Person>)
    ensures page.markdown.None? || |page.markdown.value| < MinPageChars ==> r == []
    ensures forall k :: 0 <= k < |r| ==>
              r[k].sourceUrl == PageUrl(page) && r[k].signal == SignalLabel(signals) && ValidName(r[k].name)
    ensures page.markdown.Some? && |page.markdown.value| >= MinPageChars ==>
              var content := Cleaner.Clean(page.markdown.value);
              var company := CompanyName(askCompany(Take(content, CompanyPromptChars)), PageUrl(page));
              var pairs := ParseNames(askNames(content));
              && (|content| < MinPageChars || company.Failure? ==> r == [])
              && (|content| >= MinPageChars && company.Success? ==>
                    && |r| == |pairs|
                    && forall k :: 0 <= k < |r| ==>
                         r[k] == Person(pairs[k].0, pairs[k].1, SignalLabel(signals), company.value, PageUrl(page)))
  {
    if page.markdown.None? || |page.markdown.value| < MinPageChars then []
    else
      var content := Cleaner.Clean(page.markdown.value);
      if |content| < MinPageChars then []
      else
        match CompanyName(askCompany(Take(content, CompanyPromptChars)), PageUrl(page))
        case Failure(_) => []
        case Success(company) =>
          var pairs := ParseNames(askNames(content));
          ParsedPairsWellFormed(askNames(content));
          ToPeople(pairs, SignalLabel(signals), company, PageUrl(page))
  }

  /** `extract_names_with_llm(pages, signals)`: the page records in page order;
      nothing at all without an API key. */
  function ExtractNames(hasApiKey: bool, pages: seq<Page>, signals: string,
                        askCompany: string -> string, askNames: string -> string): (r: seq<Person>)
    ensures !hasApiKey ==> r == []
    ensures forall k :: 0 <= k < |r| ==>
              r[k].signal == SignalLabel(signals) && ValidName(r[k].name)
              && exists j :: 0 <= j < |pages| && r[k].sourceUrl == PageUrl(pages[j])
    decreases |pages|
  {
    if !hasApiKey || |pages| == 0 then []
    else
      var first := PageRecords(pages[0], signals, askCompany, askNames);
      var rest := ExtractNames(hasApiKey, pages[1..], signals, askCompany, askNames);
      forall k | 0 <= k < |rest| ensures exists j :: 0 <= j < |pages| && rest[k].sourceUrl == PageUrl(pages[j]) {
        var j :| 0 <= j < |pages[1..]| && rest[k].sourceUrl == PageUrl(pages[1..][j]);
        assert pages[1..][j] == pages[j + 1];
      }
      assert forall k :: 0 <= k < |first| ==> first[k].sourceUrl == PageUrl(pages[0]);
      first + rest
  }

  /** Pages are handled independently and in order: the records of `a + b` are
      the records of `a` followed by those of `b`. */
  lemma {:induction false} ExtractNamesAppend(hasApiKey: bool, a: seq<Page>, b: seq<Page>, signals: string,
                                              askCompany: string -> string, askNames: string -> string)
    ensures ExtractNames(hasApiKey, a + b, signals, askCompany, askNames)
            == ExtractNames(hasApiKey, a, signals, askCompany, askNames) + ExtractNames(hasApiKey, b, signals, askCompany, askNames)
    decreases |a|
  {
    if |a| == 0 {
      assert a + b == b;
    } else if hasApiKey {
      assert (a + b)[0] == a[0] && (a + b)[1..] == a[1..] + b;
      ExtractNamesAppend(hasApiKey, a[1..], b, signals, askCompany, askNames);
    }
  }

  /** With an API key, one page yields exactly that page's records. */
  lemma ExtractNamesOne(page: Page, signals: string, askCompany: string -> string, askNames: string -> string)
    ensures ExtractNames(true, [page], signals, askCompany, askNames) == PageRecords(page, signals, askCompany, askNames)
  {
    assert [page][1..] == [];
    assert PageRecords(page, signals, askCompany, askNames) + [] == PageRecords(page, signals, askCompany, askNames);
  }
}
