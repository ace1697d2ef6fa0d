/** Page routing: turning a fund's domain into a (team URL, portfolio URL) pair.
    Static candidate paths are HEAD-probed in order; when a category is still
    missing, paths discovered from links on the homepage are probed for it.

    The network is abstracted: `probe` is the outcome of `requests.head(url,
    allow_redirects=True)` for each URL, `fetchHome` the anchors of the homepage
    when `requests.get(url)` succeeds, and `join` is `urllib.parse.urljoin`,
    which raises `ValueError` for a URL whose network location has an unbalanced
    `[` (`https://[abc/`, `//[x/team`).

    `FirstHit`, `Discover` and `Route` follow the code as written: there such a
    raise escapes `route_pages`, or cuts discovery short with the unsorted lists
    gathered so far. `FirstHitGuarded`, `DiscoverGuarded` and `RouteGuarded` are
    the evidently intended behaviour, where a URL that cannot be built is
    passed over and routing never fails. */
module Router {
  import opened Wrappers
  import opened Seqs
  import opened Text
  import opened PathOrder

  /** A HEAD probe either raised (timeout, connection error, bad URL) or answered
      with a status code after following redirects to `finalUrl`. */
  datatype ProbeOutcome = Raised | Responded(status: int, finalUrl: string)

  /** An `<a href=...>` element of the homepage: its `href` attribute and its text. */
  datatype Anchor = Anchor(href: string, text: string)

  /** `urljoin(base, url)`, or `None` where it raises `ValueError`. */
  type Joiner = (string, string) -> Option<string>

  const ValueError := "ValueError"

  const TeamPatterns: seq<string> := [
    "/team", "/about/team", "/people", "/partners", "/leadership", "/our-team", "/meet-the-team",
    "/professionals", "/investment-team", "/management", "/advisors", "/board", "/who-we-are", "/about-us"
  ]

  const PortfolioPatterns: seq<string> := [
    "/portfolio", "/companies", "/investments", "/portfolio-companies", "/startups", "/ventures", "/projects"
  ]

  const TeamKeywords: seq<string> := [
    "team", "people", "leadership", "partners", "professionals", "investment-team",
    "management", "advisors", "board", "who-we-are", "our-team", "meet-the-team", "about"
  ]

  const PortfolioKeywords: seq<string> := [
    "portfolio", "companies", "investments", "portfolio-companies", "startups", "ventures", "projects"
  ]

  /** A domain without a leading "http" is put under https. */
  function Normalize(domain: string): string {
    if StartsWith(domain, "http") then domain else "https://" + domain
  }

  /** Normalizing twice is normalizing once. */
  lemma NormalizeIdempotent(domain: string)
    ensures Normalize(Normalize(domain)) == Normalize(domain)
    ensures StartsWith(Normalize(domain), "http")
  {
    if !StartsWith(domain, "http") {
      assert ("https://" + domain)[..4] == "http";
    }
  }

  /** `urljoin(base.rstrip('/') + '/', p.lstrip('/'))`: the URL probed for path `p`. */
  function ProbeTarget(join: Joiner, base: string, p: string): Option<string> {
    join(DropTrailing(base, '/') + "/", DropLeading(p, '/'))
  }

  /** A probe that counts as a hit: it answered with a status below 400. */
  predicate IsHit(o: ProbeOutcome) {
    o.Responded? && o.status < 400
  }

  /** The URL for path `p` under `base` cannot be built. */
  predicate Breaks(join: Joiner, base: string, p: string) {
    ProbeTarget(join, base, p).None?
  }

  /** The URL for path `p` under `base` can be built and probing it is a hit. */
  predicate Hits(join: Joiner, probe: string -> ProbeOutcome, base: string, p: string) {
    ProbeTarget(join, base, p).Some? && IsHit(probe(ProbeTarget(join, base, p).value))
  }

  /** Where the probe of a hitting path ended up after redirects. */
  function HitUrl(join: Joiner, probe: string -> ProbeOutcome, base: string, p: string): string
    requires Hits(join, probe, base, p)
  {
    probe(ProbeTarget(join, base, p).value).finalUrl
  }

  /** `patterns[i]` is the first path in list order whose probe is a hit. */
  predicate FirstHitAt(join: Joiner, probe: string -> ProbeOutcome, base: string, patterns: seq<string>, i: nat) {
    && i < |patterns|
    && Hits(join, probe, base, patterns[i])
    && forall p :: p in patterns[..i] ==> !Hits(join, probe, base, p)
  }

  /** The position of the first pattern whose probe is a hit, if any. */
  function FirstHitIndex(join: Joiner, probe: string -> ProbeOutcome, base: string, patterns: seq<string>): (r: Option<nat>)
    ensures r.None? <==> forall p :: p in patterns ==> !Hits(join, probe, base, p)
    ensures r.Some? ==> FirstHitAt(join, probe, base, patterns, r.value)
    decreases |patterns|
  {
    if |patterns| == 0 then None
    else if Hits(join, probe, base, patterns[0]) then Some(0)
    else
      var r := FirstHitIndex(join, probe, base, patterns[1..]);
      assert patterns == [patterns[0]] + patterns[1..];
      if r.Some? then
        assert patterns[..r.value + 1] == [patterns[0]] + patterns[1..][..r.value];
        Some(r.value + 1)
      else None
  }

  /** `first_hit` with the URL built inside its `try`: the final URL of the first
      pattern whose probe is a hit. Probes that raise or answer 400 and above, and
      patterns whose URL cannot be built, are passed over. */
  function FirstHitGuarded(join: Joiner, probe: string -> ProbeOutcome, base: string, patterns: seq<string>): (r: Option<string>)
    ensures r.None? <==> forall p :: p in patterns ==> !Hits(join, probe, base, p)
    ensures r.Some? ==> var i := FirstHitIndex(join, probe, base, patterns).value;
                        && FirstHitAt(join, probe, base, patterns, i)
                        && r.value == HitUrl(join, probe, base, patterns[i])
  {
    match FirstHitIndex(join, probe, base, patterns)
    case None => None
    case Some(i) => Some(HitUrl(join, probe, base, patterns[i]))
  }

  /** The nested `first_hit` as written: the URL is built before the `try`, so the
      first pattern whose URL cannot be built, reached before any hit, raises
      out of the loop. Otherwise it agrees with `FirstHitGuarded`. */
  function FirstHit(join: Joiner, probe: string -> ProbeOutcome, base: string, patterns: seq<string>)
    : (r: Result<Option<string>, string>)
    ensures r.Failure? ==> r.error == ValueError
    ensures r.Success? ==> r.value == FirstHitGuarded(join, probe, base, patterns)
    ensures (forall p :: p in patterns ==> !Breaks(join, base, p)) ==> r.Success?
    decreases |patterns|
  {
    if |patterns| == 0 then Success(None)
    else
      match ProbeTarget(join, base, patterns[0])
      case None =>
        assert patterns[0] in patterns;
        Failure(ValueError)
      case Some(u) =>
        if IsHit(probe(u)) then Success(Some(probe(u).finalUrl))
        else
          assert forall p :: p in patterns[1..] ==> p in patterns;
          FirstHit(join, probe, base, patterns[1..])
  }

  /** `first_hit` raises exactly when some pattern's URL cannot be built and no
      earlier pattern is a hit. */
  lemma {:induction false} FirstHitRaises(join: Joiner, probe: string -> ProbeOutcome, base: string, patterns: seq<string>)
    ensures FirstHit(join, probe, base, patterns).Failure? <==>
              exists i :: 0 <= i < |patterns| && Breaks(join, base, patterns[i])
                          && forall k :: 0 <= k < i ==> !Hits(join, probe, base, patterns[k])
    decreases |patterns|
  {
    if |patterns| > 0 && !Breaks(join, base, patterns[0]) && !Hits(join, probe, base, patterns[0]) {
      var rest := patterns[1..];
      FirstHitRaises(join, probe, base, rest);
      if FirstHit(join, probe, base, rest).Failure? {
        var i :| 0 <= i < |rest| && Breaks(join, base, rest[i])
                 && forall k :: 0 <= k < i ==> !Hits(join, probe, base, rest[k]);
        assert forall k :: 1 <= k < i + 1 ==> patterns[k] == rest[k - 1];
        assert Breaks(join, base, patterns[i + 1]);
      }
      if exists i :: 0 <= i < |patterns| && Breaks(join, base, patterns[i])
                     && forall k :: 0 <= k < i ==> !Hits(join, probe, base, patterns[k]) {
        var i :| 0 <= i < |patterns| && Breaks(join, base, patterns[i])
                 && forall k :: 0 <= k < i ==> !Hits(join, probe, base, patterns[k]);
        assert i > 0;
        assert forall k :: 0 <= k < i - 1 ==> rest[k] == patterns[k + 1];
        assert Breaks(join, base, rest[i - 1]);
      }
    }
  }

  // ---------------------------------------------------------------------------
  // Homepage candidate discovery

  /** `'/' + full.split('/', 3)[-1] if full.count('/') >= 3 else '/'`: everything
      after the third slash, re-rooted at `/`. */
  function PathOf(full: string): (p: string)
    ensures StartsWith(p, "/")
  {
    var rest := AfterSlashes(full, 3);
    if rest.Some? then "/" + rest.value else "/"
  }

  /** What follows the `n`-th slash of `s`, if `s` has that many. */
  function AfterSlashes(s: string, n: nat): Option<string>
    decreases |s|
  {
    if n == 0 then Some(s)
    else if |s| == 0 then None
    else if s[0] == '/' then AfterSlashes(s[1..], n - 1)
    else AfterSlashes(s[1..], n)
  }

  /** Text without a slash is skipped up to the slash that follows it. */
  lemma {:induction false} AfterSlashesSkip(x: string, y: string, n: nat)
    requires '/' !in x
    ensures AfterSlashes(x + "/" + y, n + 1) == AfterSlashes(y, n)
    decreases |x|
  {
    var s := x + "/" + y;
    if |x| == 0 {
      assert s[0] == '/' && s[1..] == y;
    } else {
      assert s[0] == x[0] && s[1..] == x[1..] + "/" + y;
      AfterSlashesSkip(x[1..], y, n);
    }
  }

  /** Text without a slash has no slash to skip to. */
  lemma {:induction false} AfterSlashesNone(x: string, n: nat)
    requires '/' !in x
    ensures AfterSlashes(x, n + 1) == None
    decreases |x|
  {
    if |x| > 0 {
      assert x[0] != '/';
      AfterSlashesNone(x[1..], n);
    }
  }

  /** On `scheme://host/rest` the path is `/rest`; on a bare `scheme://host` it is `/`. */
  lemma PathOfUrl(scheme: string, host: string, rest: string)
    requires '/' !in scheme && '/' !in host
    ensures PathOf(scheme + "//" + host + "/" + rest) == "/" + rest
    ensures PathOf(scheme + "//" + host) == "/"
  {
    var hr := host + "/" + rest;
    assert scheme + "//" + host + "/" + rest == scheme + "/" + ("" + "/" + hr);
    AfterSlashesSkip(scheme, "" + "/" + hr, 2);
    AfterSlashesSkip("", hr, 1);
    AfterSlashesSkip(host, rest, 0);
    assert scheme + "//" + host == scheme + "/" + ("" + "/" + host);
    AfterSlashesSkip(scheme, "" + "/" + host, 2);
    AfterSlashesSkip("", host, 1);
    AfterSlashesNone(host, 0);
  }

  /** Not a fragment link, and not external: an absolute link counts only when
      its text contains the site root `urljoin(base, '/')`. */
  predicate Followable(join: Joiner, base: string, a: Anchor) {
    && !StartsWith(a.href, "#")
    && (StartsWith(a.href, "http") ==> join(base, "/").Some? && Contains(a.href, join(base, "/").value))
  }

  /** Looking at the anchor raises: the site root (needed for an absolute link)
      or the anchor's own absolute URL cannot be built. */
  predicate AnchorBreaks(join: Joiner, base: string, a: Anchor) {
    && !StartsWith(a.href, "#")
    && ((StartsWith(a.href, "http") && join(base, "/").None?)
        || (Followable(join, base, a) && join(base, a.href).None?))
  }

  /** The site path an anchor points to. */
  function AnchorPath(join: Joiner, base: string, a: Anchor): string
    requires join(base, a.href).Some?
  {
    PathOf(join(base, a.href).value)
  }

  /** A followable anchor with a buildable URL whose lower-cased path or stripped,
      lower-cased text mentions one of the category's keywords. */
  predicate Qualifies(join: Joiner, base: string, keywords: seq<string>, a: Anchor) {
    && Followable(join, base, a)
    && join(base, a.href).Some?
    && (MentionsAny(Lower(AnchorPath(join, base, a)), keywords)
        || MentionsAny(Lower(Strip(a.text)), keywords))
  }

  /** The paths of qualifying anchors, in document order (`cand_team.append(path)`). */
  function Collect(join: Joiner, base: string, keywords: seq<string>, anchors: seq<Anchor>): (paths: seq<string>)
    ensures forall p :: p in paths <==>
              exists k :: 0 <= k < |anchors| && Qualifies(join, base, keywords, anchors[k])
                          && p == AnchorPath(join, base, anchors[k])
    decreases |anchors|
  {
    if |anchors| == 0 then []
    else
      var rest := Collect(join, base, keywords, anchors[1..]);
      assert forall k :: 1 <= k < |anchors| ==> anchors[k] == anchors[1..][k - 1];
      if Qualifies(join, base, keywords, anchors[0]) then [AnchorPath(join, base, anchors[0])] + rest
      else rest
  }

  /** Collecting over two runs of anchors is collecting over each in turn. */
  lemma {:induction false} CollectAppend(join: Joiner, base: string, keywords: seq<string>, a: seq<Anchor>, b: seq<Anchor>)
    ensures Collect(join, base, keywords, a + b) == Collect(join, base, keywords, a) + Collect(join, base, keywords, b)
    decreases |a|
  {
    if |a| == 0 {
      assert a + b == b;
    } else {
      assert (a + b)[0] == a[0] && (a + b)[1..] == a[1..] + b;
      CollectAppend(join, base, keywords, a[1..], b);
    }
  }

  /** The position of the first anchor whose handling raises, if any. */
  function FirstBreak(join: Joiner, base: string, anchors: seq<Anchor>): (r: Option<nat>)
    ensures r.None? <==> forall k :: 0 <= k < |anchors| ==> !AnchorBreaks(join, base, anchors[k])
    ensures r.Some? ==> && r.value < |anchors| && AnchorBreaks(join, base, anchors[r.value])
                        && forall k :: 0 <= k < r.value ==> !AnchorBreaks(join, base, anchors[k])
    decreases |anchors|
  {
    if |anchors| == 0 then None
    else if AnchorBreaks(join, base, anchors[0]) then Some(0)
    else
      var r := FirstBreak(join, base, anchors[1..]);
      assert forall k :: 1 <= k < |anchors| ==> anchors[k] == anchors[1..][k - 1];
      if r.Some? then Some(r.value + 1) else None
  }

  /** Discovery with anchors that cannot be resolved passed over: the team and
      portfolio shortlists built from the homepage's anchors, both empty when the
      homepage cannot be fetched. */
  function DiscoverGuarded(join: Joiner, fetchHome: string -> Option<seq<Anchor>>, base: string): (r: (seq<string>, seq<string>))
    ensures fetchHome(Normalize(base)).None? ==> r == ([], [])
    ensures |r.0| <= MaxCandidates && |r.1| <= MaxCandidates
  {
    var b := Normalize(base);
    match fetchHome(b)
    case None => ([], [])
    case Some(anchors) =>
      (Shortlist(Collect(join, b, TeamKeywords, anchors)), Shortlist(Collect(join, b, PortfolioKeywords, anchors)))
  }

  /** `discover_candidates_from_homepage` as written: the loop sits inside a bare
      `try`, so a raise at anchor `k` returns the paths gathered from the anchors
      before it, neither de-duplicated, sorted nor capped. Without a raise it
      agrees with `DiscoverGuarded`. */
  function Discover(join: Joiner, fetchHome: string -> Option<seq<Anchor>>, base: string): (r: (seq<string>, seq<string>))
    ensures forall p :: p in r.0 ==> StartsWith(p, "/")
    ensures forall p :: p in r.1 ==> StartsWith(p, "/")
    ensures fetchHome(Normalize(base)).None? ==> r == ([], [])
    ensures (fetchHome(Normalize(base)).Some? && FirstBreak(join, Normalize(base), fetchHome(Normalize(base)).value).None?)
              ==> r == DiscoverGuarded(join, fetchHome, base)
  {
    var b := Normalize(base);
    match fetchHome(b)
    case None => ([], [])
    case Some(anchors) =>
      match FirstBreak(join, b, anchors)
      case None =>
        (Shortlist(Collect(join, b, TeamKeywords, anchors)), Shortlist(Collect(join, b, PortfolioKeywords, anchors)))
      case Some(k) =>
        (Collect(join, b, TeamKeywords, anchors[..k]), Collect(join, b, PortfolioKeywords, anchors[..k]))
  }

  /** A path is on a discovered shortlist only if some followable homepage anchor
      with a category keyword leads to it; every such path is on it unless fifteen
      key-smaller paths fill the list first. The list is strictly ordered by
      (length, text), so it holds no duplicates. Anchors that cannot be resolved
      are passed over. */
  lemma DiscoverGuardedShortlist(join: Joiner, fetchHome: string -> Option<seq<Anchor>>,
                                 base: string, anchors: seq<Anchor>, keywords: seq<string>, list: seq<string>)
    requires fetchHome(Normalize(base)) == Some(anchors)
    requires keywords == TeamKeywords || keywords == PortfolioKeywords
    requires list == (if keywords == TeamKeywords then DiscoverGuarded(join, fetchHome, base).0
                      else DiscoverGuarded(join, fetchHome, base).1)
    ensures |list| <= MaxCandidates
    ensures StrictlySorted(list)
    ensures forall p :: p in list ==>
              exists k :: 0 <= k < |anchors| && Qualifies(join, Normalize(base), keywords, anchors[k])
                          && !StartsWith(anchors[k].href, "#")
                          && p == AnchorPath(join, Normalize(base), anchors[k])
    ensures forall k :: 0 <= k < |anchors| && Qualifies(join, Normalize(base), keywords, anchors[k]) ==>
              AnchorPath(join, Normalize(base), anchors[k]) in list
              || (|list| == MaxCandidates
                  && forall i :: 0 <= i < |list| ==> KeyLess(list[i], AnchorPath(join, Normalize(base), anchors[k])))
  {
    assert TeamKeywords != PortfolioKeywords;
  }

  /** The code as written gives the same shortlists whenever no anchor's handling
      raises. */
  lemma DiscoverShortlist(join: Joiner, fetchHome: string -> Option<seq<Anchor>>,
                          base: string, anchors: seq<Anchor>, keywords: seq<string>, list: seq<string>)
    requires fetchHome(Normalize(base)) == Some(anchors)
    requires FirstBreak(join, Normalize(base), anchors).None?
    requires keywords == TeamKeywords || keywords == PortfolioKeywords
    requires list == (if keywords == TeamKeywords then Discover(join, fetchHome, base).0
                      else Discover(join, fetchHome, base).1)
    ensures |list| <= MaxCandidates
    ensures StrictlySorted(list)
    ensures forall k :: 0 <= k < |anchors| && Qualifies(join, Normalize(base), keywords, anchors[k]) ==>
              AnchorPath(join, Normalize(base), anchors[k]) in list
              || (|list| == MaxCandidates
                  && forall i :: 0 <= i < |list| ==> KeyLess(list[i], AnchorPath(join, Normalize(base), anchors[k])))
  {
    DiscoverGuardedShortlist(join, fetchHome, base, anchors, keywords, list);
  }

  /** As written, two homepage links to the same team path followed by a link
      whose URL cannot be built (`/team`, `/team`, `//[x/team`) leave the path
      twice on the returned list, which is then not sorted. */
  lemma AbortedDiscoveryRepeats(join: Joiner, fetchHome: string -> Option<seq<Anchor>>, base: string,
                                anchors: seq<Anchor>, i: nat, j: nat, k: nat)
    requires fetchHome(Normalize(base)) == Some(anchors)
    requires FirstBreak(join, Normalize(base), anchors) == Some(k)
    requires i < j < k
    requires Qualifies(join, Normalize(base), TeamKeywords, anchors[i])
    requires Qualifies(join, Normalize(base), TeamKeywords, anchors[j])
    requires AnchorPath(join, Normalize(base), anchors[i]) == AnchorPath(join, Normalize(base), anchors[j])
    ensures var list := Discover(join, fetchHome, base).0;
            && (exists x, y :: 0 <= x < y < |list| && list[x] == list[y])
            && !StrictlySorted(list)
  {
    var pre := anchors[..k];
    assert pre[i] == anchors[i] && pre[j] == anchors[j];
    var x, y := CollectTwice(join, Normalize(base), TeamKeywords, pre, i, j);
    DuplicateNotSorted(Collect(join, Normalize(base), TeamKeywords, pre), x, y);
  }

  /** Two qualifying anchors with the same path put that path on the collected list twice. */
  lemma CollectTwice(join: Joiner, base: string, keywords: seq<string>, s: seq<Anchor>, i: nat, j: nat)
    returns (x: nat, y: nat)
    requires i < j < |s|
    requires Qualifies(join, base, keywords, s[i]) && Qualifies(join, base, keywords, s[j])
    requires AnchorPath(join, base, s[i]) == AnchorPath(join, base, s[j])
    ensures x < y < |Collect(join, base, keywords, s)|
    ensures Collect(join, base, keywords, s)[x] == Collect(join, base, keywords, s)[y]
  {
    var p := AnchorPath(join, base, s[i]);
    var t := s[i + 1..];
    CollectAt(join, base, keywords, s, i);
    assert t[j - i - 1] == s[j];
    CollectAt(join, base, keywords, t, j - i - 1);
    x := |Collect(join, base, keywords, s[..i])|;
    y := x + 1 + |Collect(join, base, keywords, t[..j - i - 1])|;
  }

  /** A qualifying anchor contributes its path between those of the anchors around it. */
  lemma CollectAt(join: Joiner, base: string, keywords: seq<string>, s: seq<Anchor>, i: nat)
    requires i < |s| && Qualifies(join, base, keywords, s[i])
    ensures Collect(join, base, keywords, s)
            == Collect(join, base, keywords, s[..i]) + [AnchorPath(join, base, s[i])] + Collect(join, base, keywords, s[i + 1..])
  {
    assert s == s[..i] + ([s[i]] + s[i + 1..]);
    CollectAppend(join, base, keywords, s[..i], [s[i]] + s[i + 1..]);
    CollectAppend(join, base, keywords, [s[i]], s[i + 1..]);
    assert Collect(join, base, keywords, [s[i]]) == [AnchorPath(join, base, s[i])];
  }

  // ---------------------------------------------------------------------------
  // Routing

  /** Python truthiness of a found URL. */
  predicate Found(u: Option<string>) {
    Truthy(u)
  }

  /** `route_pages(base_domain)` with every URL that cannot be built passed over. */
  function RouteGuarded(join: Joiner, probe: string -> ProbeOutcome,
                        fetchHome: string -> Option<seq<Anchor>>, domain: string): (r: (Option<string>, Option<string>))
  {
    if domain == "" then (None, None) else RouteGuardedFrom(join, probe, fetchHome, Normalize(domain))
  }

  /** The guarded routing of a normalized base URL. */
  function RouteGuardedFrom(join: Joiner, probe: string -> ProbeOutcome,
                            fetchHome: string -> Option<seq<Anchor>>, base: string): (Option<string>, Option<string>)
  {
    var team := FirstHitGuarded(join, probe, base, TeamPatterns);
    var portfolio := FirstHitGuarded(join, probe, base, PortfolioPatterns);
    if Found(team) && Found(portfolio) then (team, portfolio)
    else
      var cands := DiscoverGuarded(join, fetchHome, base);
      (FillGuarded(join, probe, base, team, cands.0), FillGuarded(join, probe, base, portfolio, cands.1))
  }

  /** A category still missing after the static list takes the first hit among
      its discovered candidates, when there are any. */
  function FillGuarded(join: Joiner, probe: string -> ProbeOutcome, base: string,
                       found: Option<string>, cands: seq<string>): (r: Option<string>)
    ensures r in {found, FirstHitGuarded(join, probe, base, cands)}
  {
    if !Found(found) && |cands| > 0 then FirstHitGuarded(join, probe, base, cands) else found
  }

  /** `route_pages(base_domain)` as written: a `ValueError` from any `first_hit`
      call escapes. A category that is found is the first hit of its static
      list or of its discovered candidates on the normalized base. */
  function Route(join: Joiner, probe: string -> ProbeOutcome,
                 fetchHome: string -> Option<seq<Anchor>>, domain: string): (r: Result<(Option<string>, Option<string>), string>)
    ensures r.Failure? ==> r.error == ValueError && domain != ""
    ensures domain != "" && r.Success? ==>
              r.value.0 in {FirstHitGuarded(join, probe, Normalize(domain), TeamPatterns),
                            FirstHitGuarded(join, probe, Normalize(domain), Discover(join, fetchHome, Normalize(domain)).0)}
    ensures domain != "" && r.Success? ==>
              r.value.1 in {FirstHitGuarded(join, probe, Normalize(domain), PortfolioPatterns),
                            FirstHitGuarded(join, probe, Normalize(domain), Discover(join, fetchHome, Normalize(domain)).1)}
  {
    if domain == "" then Success((None, None)) else RouteFrom(join, probe, fetchHome, Normalize(domain))
  }

  /** The routing, as written, of a normalized base URL. */
  function RouteFrom(join: Joiner, probe: string -> ProbeOutcome,
                     fetchHome: string -> Option<seq<Anchor>>, base: string): (r: Result<(Option<string>, Option<string>), string>)
    ensures r.Failure? ==> r.error == ValueError
    ensures r.Success? ==> r.value.0 in {FirstHitGuarded(join, probe, base, TeamPatterns),
                                         FirstHitGuarded(join, probe, base, Discover(join, fetchHome, base).0)}
    ensures r.Success? ==> r.value.1 in {FirstHitGuarded(join, probe, base, PortfolioPatterns),
                                         FirstHitGuarded(join, probe, base, Discover(join, fetchHome, base).1)}
  {
    match FirstHit(join, probe, base, TeamPatterns)
    case Failure(e) => Failure(e)
    case Success(team) =>
      match FirstHit(join, probe, base, PortfolioPatterns)
      case Failure(e) => Failure(e)
      case Success(portfolio) =>
        if Found(team) && Found(portfolio) then Success((team, portfolio))
        else
          var cands := Discover(join, fetchHome, base);
          Both(Fill(join, probe, base, team, cands.0), Fill(join, probe, base, portfolio, cands.1))
  }

  /** `FillGuarded` as written: the candidates' `first_hit` may raise. */
  function Fill(join: Joiner, probe: string -> ProbeOutcome, base: string,
                found: Option<string>, cands: seq<string>): (r: Result<Option<string>, string>)
    ensures r.Failure? ==> r.error == ValueError
    ensures r.Success? ==> r.value in {found, FirstHitGuarded(join, probe, base, cands)}
  {
    if !Found(found) && |cands| > 0 then FirstHit(join, probe, base, cands) else Success(found)
  }

  /** The team result, then the portfolio result; the first failure propagates. */
  function Both(team: Result<Option<string>, string>, portfolio: Result<Option<string>, string>)
    : (r: Result<(Option<string>, Option<string>), string>)
    ensures r.Success? <==> team.Success? && portfolio.Success?
    ensures r.Success? ==> r.value == (team.value, portfolio.value)
    ensures r.Failure? ==> r.error == (if team.Failure? then team.error else portfolio.error)
  {
    match team
    case Failure(e) => Failure(e)
    case Success(t) =>
      match portfolio
      case Failure(e) => Failure(e)
      case Success(p) => Success((t, p))
  }

  /** An empty domain routes to nothing. */
  lemma RouteEmptyDomain(join: Joiner, probe: string -> ProbeOutcome, fetchHome: string -> Option<seq<Anchor>>)
    ensures Route(join, probe, fetchHome, "") == Success((None, None))
  {
  }

  /** A bare domain is routed exactly as its `https://` form. */
  lemma RouteUnderHttps(join: Joiner, probe: string -> ProbeOutcome,
                        fetchHome: string -> Option<seq<Anchor>>, domain: string)
    requires domain != "" && !StartsWith(domain, "http")
    ensures Route(join, probe, fetchHome, domain) == Route(join, probe, fetchHome, "https://" + domain)
  {
    NormalizeIdempotent(domain);
  }

  /** Every URL the router returns is where the probe of one of the category's
      static patterns, or of one of its discovered candidates, ended up after a
      response below 400. */
  lemma RouteResultsWereHits(join: Joiner, probe: string -> ProbeOutcome,
                             fetchHome: string -> Option<seq<Anchor>>, domain: string)
    ensures var r := Route(join, probe, fetchHome, domain);
            var base := Normalize(domain);
            var cands := Discover(join, fetchHome, base);
            && (r.Success? && r.value.0.Some? ==>
                  exists p :: (p in TeamPatterns || p in cands.0) && Hits(join, probe, base, p)
                              && HitUrl(join, probe, base, p) == r.value.0.value)
            && (r.Success? && r.value.1.Some? ==>
                  exists p :: (p in PortfolioPatterns || p in cands.1) && Hits(join, probe, base, p)
                              && HitUrl(join, probe, base, p) == r.value.1.value)
  {
    if domain != "" {
      TeamResultWasHit(join, probe, fetchHome, Normalize(domain));
      PortfolioResultWasHit(join, probe, fetchHome, Normalize(domain));
    }
  }

  lemma TeamResultWasHit(join: Joiner, probe: string -> ProbeOutcome,
                         fetchHome: string -> Option<seq<Anchor>>, base: string)
    ensures var r := RouteFrom(join, probe, fetchHome, base);
            r.Success? && r.value.0.Some? ==>
              exists p :: (p in TeamPatterns || p in Discover(join, fetchHome, base).0) && Hits(join, probe, base, p)
                          && HitUrl(join, probe, base, p) == r.value.0.value
  {
    var r := RouteFrom(join, probe, fetchHome, base);
    if r.Success? {
      EitherWitness(join, probe, base, TeamPatterns, Discover(join, fetchHome, base).0, r.value.0);
    }
  }

  lemma PortfolioResultWasHit(join: Joiner, probe: string -> ProbeOutcome,
                              fetchHome: string -> Option<seq<Anchor>>, base: string)
    ensures var r := RouteFrom(join, probe, fetchHome, base);
            r.Success? && r.value.1.Some? ==>
              exists p :: (p in PortfolioPatterns || p in Discover(join, fetchHome, base).1) && Hits(join, probe, base, p)
                          && HitUrl(join, probe, base, p) == r.value.1.value
  {
    var r := RouteFrom(join, probe, fetchHome, base);
    if r.Success? {
      EitherWitness(join, probe, base, PortfolioPatterns, Discover(join, fetchHome, base).1, r.value.1);
    }
  }

  /** A first hit taken from one of two lists comes from a hitting pattern on one of them. */
  lemma EitherWitness(join: Joiner, probe: string -> ProbeOutcome, base: string,
                      first: seq<string>, second: seq<string>, v: Option<string>)
    requires v in {FirstHitGuarded(join, probe, base, first), FirstHitGuarded(join, probe, base, second)}
    ensures v.Some? ==> exists p :: (p in first || p in second) && Hits(join, probe, base, p) && HitUrl(join, probe, base, p) == v.value
  {
    HitWitness(join, probe, base, first);
    HitWitness(join, probe, base, second);
  }

  /** A found URL comes from a pattern on the probed list. */
  lemma HitWitness(join: Joiner, probe: string -> ProbeOutcome, base: string, patterns: seq<string>)
    ensures var r := FirstHitGuarded(join, probe, base, patterns);
            r.Some? ==> exists p :: p in patterns && Hits(join, probe, base, p) && HitUrl(join, probe, base, p) == r.value
  {
    var r := FirstHitGuarded(join, probe, base, patterns);
    if r.Some? {
      var i := FirstHitIndex(join, probe, base, patterns).value;
      assert patterns[i] in patterns;
    }
  }

  /** A static-pattern hit always wins: the homepage is not consulted for that
      category, whatever it contains. */
  lemma StaticHitWins(join: Joiner, probe: string -> ProbeOutcome,
                      fetchHome: string -> Option<seq<Anchor>>, domain: string)
    requires domain != ""
    ensures var base := Normalize(domain);
            var r := Route(join, probe, fetchHome, domain);
            var team := FirstHit(join, probe, base, TeamPatterns);
            var portfolio := FirstHit(join, probe, base, PortfolioPatterns);
            && (r.Success? && team.Success? && Found(team.value) ==> r.value.0 == team.value)
            && (r.Success? && portfolio.Success? && Found(portfolio.value) ==> r.value.1 == portfolio.value)
  {
  }

  /** When both static lists hit, the result does not depend on the homepage at all. */
  lemma HomepageOnlyWhenMissing(join: Joiner, probe: string -> ProbeOutcome,
                                home1: string -> Option<seq<Anchor>>, home2: string -> Option<seq<Anchor>>,
                                domain: string)
    requires domain != ""
    requires FirstHit(join, probe, Normalize(domain), TeamPatterns).Success?
    requires FirstHit(join, probe, Normalize(domain), PortfolioPatterns).Success?
    requires Found(FirstHit(join, probe, Normalize(domain), TeamPatterns).value)
    requires Found(FirstHit(join, probe, Normalize(domain), PortfolioPatterns).value)
    ensures Route(join, probe, home1, domain) == Route(join, probe, home2, domain)
  {
  }

  /** A category the static list missed takes the first hit among its own
      discovered candidates (or stays missing when there are none); the other
      category's list is never consulted for it. */
  lemma MissingCategoryUsesItsCandidates(join: Joiner, probe: string -> ProbeOutcome,
                                         fetchHome: string -> Option<seq<Anchor>>, domain: string)
    requires domain != ""
    ensures var base := Normalize(domain);
            var cands := Discover(join, fetchHome, base);
            var r := Route(join, probe, fetchHome, domain);
            var team := FirstHit(join, probe, base, TeamPatterns);
            var portfolio := FirstHit(join, probe, base, PortfolioPatterns);
            && (r.Success? && team.Success? && !Found(team.value) ==>
                  Success(r.value.0) == (if |cands.0| > 0 then FirstHit(join, probe, base, cands.0) else team))
            && (r.Success? && portfolio.Success? && !Found(portfolio.value) ==>
                  Success(r.value.1) == (if |cands.1| > 0 then FirstHit(join, probe, base, cands.1) else portfolio))
  {
  }

  /** When neither static list hits, both categories come from the homepage:
      each takes the first hit among its own candidates, team first, and keeps
      the static result when it has no candidates. */
  lemma RouteMissingBoth(join: Joiner, probe: string -> ProbeOutcome,
                         fetchHome: string -> Option<seq<Anchor>>, domain: string)
    requires domain != ""
    requires FirstHit(join, probe, Normalize(domain), TeamPatterns).Success?
    requires FirstHit(join, probe, Normalize(domain), PortfolioPatterns).Success?
    requires !Found(FirstHit(join, probe, Normalize(domain), TeamPatterns).value)
    requires !Found(FirstHit(join, probe, Normalize(domain), PortfolioPatterns).value)
    ensures var base := Normalize(domain);
            var cands := Discover(join, fetchHome, base);
            var team := FirstHit(join, probe, base, TeamPatterns);
            var portfolio := FirstHit(join, probe, base, PortfolioPatterns);
            Route(join, probe, fetchHome, domain)
              == Both(if |cands.0| > 0 then FirstHit(join, probe, base, cands.0) else team,
                      if |cands.1| > 0 then FirstHit(join, probe, base, cands.1) else portfolio)
  {
  }

  /** When every URL can be built, the code as written never fails and agrees
      with the guarded router. */
  lemma RouteAgrees(join: Joiner, probe: string -> ProbeOutcome,
                    fetchHome: string -> Option<seq<Anchor>>, domain: string)
    requires forall a, b :: join(a, b).Some?
    ensures Route(join, probe, fetchHome, domain) == Success(RouteGuarded(join, probe, fetchHome, domain))
  {
    if domain != "" {
      RouteFromAgrees(join, probe, fetchHome, Normalize(domain));
    }
  }

  lemma RouteFromAgrees(join: Joiner, probe: string -> ProbeOutcome,
                        fetchHome: string -> Option<seq<Anchor>>, base: string)
    requires forall a, b :: join(a, b).Some?
    ensures RouteFrom(join, probe, fetchHome, base) == Success(RouteGuardedFrom(join, probe, fetchHome, base))
  {
    DiscoverAgrees(join, fetchHome, base);
    var cands := Discover(join, fetchHome, base);
    FirstHitAgrees(join, probe, base, TeamPatterns);
    FirstHitAgrees(join, probe, base, PortfolioPatterns);
    var team := FirstHitGuarded(join, probe, base, TeamPatterns);
    var portfolio := FirstHitGuarded(join, probe, base, PortfolioPatterns);
    FillAgrees(join, probe, base, team, cands.0);
    FillAgrees(join, probe, base, portfolio, cands.1);
  }

  lemma FillAgrees(join: Joiner, probe: string -> ProbeOutcome, base: string, found: Option<string>, cands: seq<string>)
    requires forall a, b :: join(a, b).Some?
    ensures Fill(join, probe, base, found, cands) == Success(FillGuarded(join, probe, base, found, cands))
  {
    FirstHitAgrees(join, probe, base, cands);
  }

  /** When every URL can be built, `first_hit` as written never raises. */
  lemma FirstHitAgrees(join: Joiner, probe: string -> ProbeOutcome, base: string, patterns: seq<string>)
    requires forall a, b :: join(a, b).Some?
    ensures FirstHit(join, probe, base, patterns) == Success(FirstHitGuarded(join, probe, base, patterns))
  {
    assert forall p :: p in patterns ==> !Breaks(join, base, p);
  }

  /** When every URL can be built, discovery as written keeps its shortlists. */
  lemma DiscoverAgrees(join: Joiner, fetchHome: string -> Option<seq<Anchor>>, base: string)
    requires forall a, b :: join(a, b).Some?
    ensures Discover(join, fetchHome, base) == DiscoverGuarded(join, fetchHome, base)
  {
    var home := fetchHome(Normalize(base));
    if home.Some? {
      var anchors := home.value;
      assert forall k :: 0 <= k < |anchors| ==> !AnchorBreaks(join, Normalize(base), anchors[k]);
    }
  }

  /** When every probe raises or answers 400 and above, the guarded router yields
      nothing and does not fail, whatever `urljoin` does. */
  lemma RouteGuardedGracefulAbsence(join: Joiner, probe: string -> ProbeOutcome,
                                    fetchHome: string -> Option<seq<Anchor>>, domain: string)
    requires forall u :: !IsHit(probe(u))
    ensures RouteGuarded(join, probe, fetchHome, domain) == (None, None)
  {
    if domain != "" {
      var base := Normalize(domain);
      var cands := DiscoverGuarded(join, fetchHome, base);
      NoHitNoUrl(join, probe, base, TeamPatterns);
      NoHitNoUrl(join, probe, base, PortfolioPatterns);
      NoHitNoUrl(join, probe, base, cands.0);
      NoHitNoUrl(join, probe, base, cands.1);
    }
  }

  /** As written, the same holds only when every URL can be built. */
  lemma RouteGracefulAbsence(join: Joiner, probe: string -> ProbeOutcome,
                             fetchHome: string -> Option<seq<Anchor>>, domain: string)
    requires forall u :: !IsHit(probe(u))
    requires forall a, b :: join(a, b).Some?
    ensures Route(join, probe, fetchHome, domain) == Success((None, None))
  {
    RouteAgrees(join, probe, fetchHome, domain);
    RouteGuardedGracefulAbsence(join, probe, fetchHome, domain);
  }

  /** As written, a domain such as `[abc` makes `route_pages` raise: the very
      first team URL, `urljoin("https://[abc/", "team")`, cannot be built. */
  lemma BadDomainRaises(join: Joiner, probe: string -> ProbeOutcome, fetchHome: string -> Option<seq<Anchor>>)
    requires join("https://[abc/", "team").None?
    ensures Route(join, probe, fetchHome, "[abc") == Failure(ValueError)
  {
    BadDomainTarget(join);
    assert Breaks(join, Normalize("[abc"), TeamPatterns[0]);
  }

  /** The first team URL for the domain `[abc` is `urljoin("https://[abc/", "team")`. */
  lemma BadDomainTarget(join: Joiner)
    ensures TeamPatterns[0] == "/team"
    ensures ProbeTarget(join, Normalize("[abc"), "/team") == join("https://[abc/", "team")
  {
    var d := "[abc";
    assert d[0] == '[' && !StartsWith(d, "http");
    var base := "https://" + d;
    assert Normalize(d) == base;
    assert |base| > 0 && base[|base| - 1] == 'c';
    assert DropTrailing(base, '/') == base;
    assert "/team"[0] == '/' && "/team"[1..] == "team";
    assert "team"[0] == 't';
    assert DropLeading("/team", '/') == "team";
    assert base + "/" == "https://[abc/";
  }

  lemma NoHitNoUrl(join: Joiner, probe: string -> ProbeOutcome, base: string, patterns: seq<string>)
    requires forall u :: !IsHit(probe(u))
    ensures FirstHitGuarded(join, probe, base, patterns) == None
  {
    forall p | p in patterns
      ensures !Hits(join, probe, base, p)
    {
      if ProbeTarget(join, base, p).Some? {
        var u := ProbeTarget(join, base, p).value;
        assert !IsHit(probe(u));
      }
    }
  }
}
