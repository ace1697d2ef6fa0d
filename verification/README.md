# Outbound prospecting pipelines — a Dafny model of the core

This project models the decision logic of the outbound prospecting tool: the
Streamlit app that finds the team and portfolio pages of a venture fund's site,
follows its pagination, cleans scraped markdown, asks a language model for
names and parses the reply, and rate-limits those calls; the three keyword
signal extractors (big-tech, UT-alumni, VC-partnership pages); the Clay webhook
client; and the VC-partnership orchestrator. Everything is pure Dafny
functions over immutable data, plus one method with a loop
(`Pagination.DiscoverPages`).

The outside world is turned into parameters:

- URL joining (`urljoin`) is a function `join`. In the router it returns an optional URL: `None` where `urljoin` raises `ValueError`.
- The HEAD probe is a function from URL to `ProbeOutcome`.
- The homepage fetch is a function from URL to an optional list of anchors.
- Each language-model call is a function from the variable part of its prompt to the reply text.
- The page fetch and the Firecrawl crawl are functions that give an HTML length and an item count.
- A parsed HTML page is its text nodes in document order. Each node carries its parent element's text.
- The wall clock is a sequence of readings.

Modules, one per file:

| module | file | what it is |
|---|---|---|
| `Wrappers` | wrappers.dfy | `Option`, `Result`, Python truthiness of optional strings |
| `Seqs` | seqs.dfy | order-preserving filter, subsequences, prefixes |
| `Text` | text.dfy | the string operations the source uses: lower-casing, strip, split/join, substring search, replace |
| `PathOrder` | path_order.dfy | the `(len(p), p)` sort key, deduplicating sort, the 15-candidate cap |
| `Router` | router.dfy | `route_pages` and `discover_candidates_from_homepage` |
| `Pagination` | pagination.dfy | `discover_pagination_urls` |
| `Cleaner` | cleaner.dfy | `clean_content_for_llm` |
| `RateLimiter` | rate_limiter.dfy | `limiter_allow` |
| `NameParser` | name_parser.dfy | `extract_names_with_llm`: company name, reply parser, records |
| `LlmReply` | llm_reply.dfy | `gemini_text`, `extract_vcs_and_companies`, `extract_company_people` |
| `KeywordMatch` | keyword_match.dfy | page text, node search and snippets shared by the three signal extractors |
| `BigTechSignals` | bigtech_signals.dfy | `extract_signals_from_html`, `_find_snippet` |
| `UtAlumniSignals` | ut_alumni_signals.dfy | `extract_donor_signals` |
| `VcSignals` | vc_signals.dfy | `extract_partnership_signals` |
| `Clay` | clay.dfy | `Settings` fields, `ClayClient`, `get_clay_for_pipeline` |
| `VcOrchestrator` | vc_orchestrator.dfy | the VC-partnership `run_pipeline` and its helpers |

## Model

| member | source | states |
|---|---|---|
| Router.NormalizeIdempotent | backend/app.py:150-152 | A domain is put under `https://` only when it lacks an `http` prefix, so normalizing twice changes nothing and the result always starts with `http` |
| Router.FirstHitIndex | backend/app.py:153-162 | There is no index exactly when no pattern both yields a URL and gets a probe answer below 400; otherwise it is the first such pattern in list order, every earlier one a miss |
| Router.FirstHit | backend/app.py:153-162 | As written `first_hit` can only raise `ValueError` (from `urljoin`, outside the `try`); it cannot raise when every URL can be built; when it returns, it returns what the guarded version returns |
| Router.FirstHitGuarded | backend/app.py:153-162 | With URL building inside the `try`: None exactly when no pattern hits; otherwise the post-redirect URL of the first hitting pattern |
| Router.FirstHitRaises | backend/app.py:153-162 | As written, `first_hit` raises exactly when some pattern's URL cannot be built and no earlier pattern hits |
| Router.PathOf | backend/app.py:202 | The path taken from an absolute URL always starts with `/` |
| Router.PathOfUrl | backend/app.py:202 | On `scheme://host/rest` the path is `/rest`, and on a bare `scheme://host` it is `/` |
| Router.Collect | backend/app.py:192-207 | A path is collected exactly when some followable anchor (no `#` prefix, not off-site) qualifies and yields that path, with the keyword found in its lower-cased path or text |
| Router.CollectAppend | backend/app.py:192-207 | Anchors are read in document order: collecting over `a + b` is collecting over `a`, then over `b` |
| Router.Discover | backend/app.py:175-213 | Every path on either list starts with `/`; a failed homepage fetch gives two empty lists; when no anchor raises, the lists are the guarded shortlists |
| Router.DiscoverGuarded | backend/app.py:175-213 | With unresolvable anchors passed over: both lists empty after a failed fetch, each at most 15 long |
| Router.DiscoverGuardedShortlist | backend/app.py:192-210 | Each guarded list has at most 15 entries, strictly ordered by (length, text). Each entry comes from a qualifying anchor, and a qualifying anchor's path is missing only when 15 shorter-keyed paths fill the list |
| Router.DiscoverShortlist | backend/app.py:192-210 | When no anchor raises, each list as written has at most 15 entries, strictly ordered by (length, text), and misses a qualifying anchor's path only when 15 shorter-keyed paths fill it |
| Router.AbortedDiscoveryRepeats | backend/app.py:192-212 | As written, two qualifying anchors with the same path before the first anchor that raises leave that path twice on the returned list, which is then not strictly ordered |
| Router.Route | backend/app.py:147-173 | Routing as written fails only with `ValueError`, and never for an empty domain. Each category it reports is the first hit, on the `https://`-normalized base, of either its static pattern list or its candidates discovered on the homepage |
| Router.RouteEmptyDomain | backend/app.py:148-149 | An empty domain routes to (None, None) |
| Router.RouteUnderHttps | backend/app.py:150-152 | A bare domain is routed exactly as its `https://` form |
| Router.RouteResultsWereHits | backend/app.py:153-173 | Every returned URL is the post-redirect URL of a probe, answered below 400, of the URL built for one of that category's static patterns or one of its own homepage candidates |
| Router.HitWitness | backend/app.py:153-162 | A found URL is the post-redirect URL of a probe, answered below 400, of the URL built for a pattern on the probed list |
| Router.StaticHitWins | backend/app.py:163-172 | When a static pattern hits for a category, that category's result is the static hit, whatever the homepage holds |
| Router.HomepageOnlyWhenMissing | backend/app.py:166-172 | When both static lists hit, the result does not depend on the homepage at all |
| Router.MissingCategoryUsesItsCandidates | backend/app.py:167-172 | A category the static list missed takes `first_hit` over its own homepage candidates (or keeps the static result when it has none), never the other category's |
| Router.RouteGracefulAbsence | backend/app.py:147-173 | As written, when every probe raises or answers 400 or above and every URL can be built, routing returns (None, None) without raising |
| Router.RouteGuardedGracefulAbsence | backend/app.py:147-173 | With URL building guarded, when every probe raises or answers 400 or above, routing returns (None, None), whatever `urljoin` does |
| Router.RouteAgrees | backend/app.py:147-213 | When every URL can be built, routing as written never raises and equals the guarded router |
| Router.BadDomainRaises | backend/app.py:150-160 | As written, the domain `[abc`, whose first team URL `urljoin("https://[abc/", "team")` cannot be built, makes `route_pages` raise `ValueError` |
| Router.RouteMissingBoth | backend/app.py:163-172 | When neither static list hits, the team result comes from the team candidates and the portfolio result from the portfolio candidates, team first, and the first `ValueError` propagates |
| Router.NoHitNoUrl | backend/app.py:153-162 | With no hitting probe, `first_hit` returns None for any pattern list |
| PathOrder.LexLessTransitive | backend/app.py:209 | Python string comparison is transitive |
| PathOrder.LexLessTotal | backend/app.py:209 | Of two different strings one compares below the other |
| PathOrder.KeyLessStrictTotal | backend/app.py:209 | The `(len(p), p)` tuple order is irreflexive, transitive, total and asymmetric |
| PathOrder.Insert | backend/app.py:209 | Inserting into a strictly ordered list keeps it strictly ordered and adds exactly the new element |
| PathOrder.SortUnique | backend/app.py:209 | `sorted(set(xs), key=...)` is strictly ordered and holds exactly the elements of `xs` |
| PathOrder.SortedIsUnique | backend/app.py:209 | Two strictly ordered lists with the same elements are equal, so the sorted candidate list is determined by its set |
| PathOrder.Shortlist | backend/app.py:209-210 | At most 15 paths, strictly ordered, all from the input; a path left out has 15 keys below it in the list |
| Pagination.Absorb | backend/app.py:246-251 | One loop step only appends, and at most one URL |
| Pagination.Walk | backend/app.py:244-251 | Without a cap, the list starts with the seed URL, has no duplicates, and is otherwise made of resolved `http` links, at most one per link |
| Pagination.WalkOrder | backend/app.py:244-251 | The list keeps first-resolution order: of two URLs after the seed, the earlier one first occurs earlier among the resolved links |
| Pagination.WalkComplete | backend/app.py:244-251 | Without a cap, every usable link that resolves to an `http` URL is collected |
| Pagination.WalkStep | backend/app.py:244-251 | Reading one more link only extends the list |
| Pagination.WalkGrows | backend/app.py:244-251 | Reading a longer prefix of the links only extends the list |
| Pagination.ResolvedGrows | backend/app.py:244-251 | The resolved links of a prefix are a prefix of the resolved links |
| Pagination.DiscoverPages | backend/app.py:232-254 | The result starts with the seed URL and is a prefix of the uncapped walk. Empty markup gives only the seed. With a cap of 2 or more it holds exactly min(cap, uncapped length) URLs. With a cap of 1 or less the cap is checked only after an append, so one extra URL can get in |
| Cleaner.SkipPatternShape | backend/app.py:305-311 | Every skip pattern is one non-empty line with non-blank ends |
| Cleaner.KeptLines | backend/app.py:297-332 | The kept lines are the input lines, verbatim and in order, that pass the line test (non-empty, no skip pattern, not a link line, at least 10 characters or a digit), each one kept as often as it passes |
| Cleaner.Clean | backend/app.py:292-336 | Empty input gives ""; otherwise the kept lines joined by newlines, cut to exactly min(joined length, 3000) characters |
| Cleaner.CleanHasNoSkipPattern | backend/app.py:305-336 | No skip pattern occurs anywhere in the lower-cased cleaned text: not inside a line, not across the joins, not after truncation |
| Cleaner.KeptLineIsFree | backend/app.py:314-322 | A kept line, lower-cased and stripped, contains no skip pattern |
| Cleaner.AbsentFromEveryLine | backend/app.py:332-336 | A one-line pattern with non-blank ends that no kept line holds cannot appear in the cleaned text, across a line join or after truncation |
| Cleaner.CleanSplitsIntoKeptLines | backend/app.py:332-336 | When nothing is truncated, splitting the cleaned text at newlines gives back exactly the kept lines |
| RateLimiter.Popped | backend/app.py:544-545 | Eviction pops exactly the leading entries older than 60 seconds, stopping at the first one still in the window |
| RateLimiter.Evict | backend/app.py:544-545 | The queue left by eviction is a suffix of the old queue. Every dropped entry is more than 60 seconds old, and the first kept entry is not. On a time-ordered queue, exactly the entries at most 60 seconds old remain, in order |
| RateLimiter.PoppedIsWindowFilter | backend/app.py:544-545 | On a time-ordered queue, popping stale entries from the front keeps exactly the entries at most 60 seconds old |
| RateLimiter.EvictIsWindowFilter | backend/app.py:544-545 | On a time-ordered queue, eviction equals keeping exactly the entries at most 60 seconds old |
| RateLimiter.KeepAll | backend/app.py:544-545 | Filtering with a predicate every entry meets changes nothing |
| RateLimiter.Check | backend/app.py:541-550 | A pass admits iff fewer than `rpm` entries remain after eviction. On admission the new stamp is appended and the window holds at most `rpm`. On a wait, the sleep is exactly the time until the oldest remaining entry turns 60 seconds old, which is never negative |
| RateLimiter.Delay | backend/app.py:546-548 | The requested sleep is 0 when the pass admits and otherwise exactly `60 - (now - oldest)`, never negative |
| RateLimiter.AdmitPreservesWindow | backend/app.py:544-550 | Admission keeps the queue time-ordered, bounded by `rpm`, with the new stamp last |
| RateLimiter.WaitIsAtMostAMinute | backend/app.py:546-548 | A wait never exceeds 60 seconds when the queue holds no future stamps |
| RateLimiter.QuietPeriodAdmits | backend/app.py:544-550 | After a minute with no calls, the queue empties and the call is admitted alone |
| RateLimiter.EvictAllOld | backend/app.py:544-545 | When every entry is old, eviction empties the queue |
| RateLimiter.WaitThenAdmit | backend/app.py:546-549 | A call that waited is admitted on its retry once the clock is strictly past the requested sleep |
| RateLimiter.Allow | backend/app.py:541-550 | An admitted call leaves at most `rpm` entries and consumes at least two clock readings |
| RateLimiter.AllowAdmitsBySecondPass | backend/app.py:546-550 | With a bounded queue and a clock that honours the sleep, a call is admitted by its second pass |
| RateLimiter.FullWindowWaits | backend/app.py:546-549 | With `rpm` calls inside the last minute, the next call must wait |
| LlmReply.StripFences | backend/app.py:486-497 | A reply that does not start with a code fence is only stripped |
| LlmReply.StripFencesIsStripped | backend/app.py:487-496 | The cleaned reply never has whitespace at either end |
| LlmReply.FencedBlockRoundTrip | backend/app.py:488-496 | Fencing a body with `` ```lang `` and `` ``` `` lines and cleaning the reply gives back the stripped body |
| LlmReply.UnclosedFenceKeepsBody | backend/app.py:487-496 | A reply cut off before its closing fence loses only the opening fence line: the stripped rest comes back whole |
| LlmReply.GeminiText | backend/app.py:482-497 | The call goes through exactly when the limiter admits it at 15 calls per minute; the result is the cleaned reply and the limiter stays within 15 |
| LlmReply.Blob | backend/app.py:500-501 | The blob is the pages joined with page-break markers, cut to exactly min(joined length, 900000) characters |
| LlmReply.BlobStartsWithFirstPage | backend/app.py:500-501 | The first page leads the blob, cut only if it alone exceeds the budget |
| LlmReply.Scope | backend/app.py:526 | The scope is either founders or all employees |
| LlmReply.ScopeIgnoresCase | backend/app.py:526 | Founders are asked for exactly when the lower-cased stage is seed, pre-seed or early, in any letter case |
| LlmReply.ExtractCompanyPeople | backend/app.py:524-537 | The result is the cleaned reply to a prompt built from the stage's scope, the focus signals and the page blob |
| LlmReply.ExtractVcsAndCompanies | backend/app.py:499-522 | Two rate-limited calls, people then companies, sharing the limiter (at most 15 entries after both); each result is the cleaned reply to its own blob |
| NameParser.ParseNames | backend/app.py:424-464 | A reply that says "no names found", in any letter case, yields no pairs. Every pair it does yield has a valid name (more than 2 characters, at least two words) and a role that is "Not specified" or a usable one |
| NameParser.StepGood | backend/app.py:429-454 | One line keeps the parser state well formed |
| NameParser.FoldGood | backend/app.py:429-454 | Any number of lines keep the parser state well formed |
| NameParser.ParsedPairsWellFormed | backend/app.py:424-464 | Every parsed pair has a valid name (more than 2 characters, at least two words) and a role that is "Not specified" or a usable one |
| NameParser.NoNamesFoundYieldsNothing | backend/app.py:424 | A reply that says "no names found", in any case, yields no pairs |
| NameParser.FoldWeight | backend/app.py:429-454 | Emitted plus pending people never outnumber the name lines read |
| NameParser.AtMostOnePairPerNameLine | backend/app.py:424-464 | A reply yields at most one pair per `name:` line |
| NameParser.InvalidNameLineRepeatsPerson | backend/app.py:431-448 | An invalid name after a valid one emits the current person and keeps them current, so that person is emitted twice |
| NameParser.UnusableRoleLeavesState | backend/app.py:450-454 | An empty or "not specified" role line changes nothing |
| NameParser.OtherLinesIgnored | backend/app.py:429-454 | Lines with neither a name nor a role/title key change nothing |
| NameParser.NameLineStep | backend/app.py:431-448 | A `Name: n` line with a valid name emits the person being collected and starts collecting `n` with the default role |
| NameParser.RoleLineStep | backend/app.py:450-454 | A `Role: r` line with a usable role replaces whatever role is current; a "Not specified" line leaves the default role in place |
| NameParser.FoldListing | backend/app.py:429-464 | Reading `Name:`/`Role:` line pairs after any state emits what that state would emit, then exactly the listed pairs |
| NameParser.ListingRoundTrip | backend/app.py:424-464 | A reply written exactly in the requested `Name:`/`Role:` format parses back to the listed pairs, in order, unless it says "no names found" |
| NameParser.HostPart | backend/app.py:395 | `url.split('/')[2]` succeeds iff the URL has at least three `/`-separated parts, and the host holds no `/` |
| NameParser.HostPartOfUrl | backend/app.py:395 | For `scheme://host/path` the fallback is exactly the host |
| NameParser.CompanyName | backend/app.py:392-395 | The lookup fails only when the answer says "unknown" and the URL has no host part |
| NameParser.CompanyNameFromAnswer | backend/app.py:393-395 | An answer without "unknown" is used stripped, with its `*` removed |
| NameParser.CompanyNameFallsBackToHost | backend/app.py:393-395 | An "Unknown" answer on a `scheme://host/...` page falls back to the host |
| NameParser.PageRecords | backend/app.py:362-468 | A page with missing or short markdown, too little cleaned text, or a failed company-name fallback gives nothing; otherwise one record per pair parsed from the names reply, in order, with that pair, the company name, the signal label ("General" when none) and the page URL (default "unknown") |
| NameParser.ExtractNames | backend/app.py:339-475 | Without an API key nothing is returned; every record has the signal label, a valid name and the URL of one of the input pages |
| NameParser.ExtractNamesAppend | backend/app.py:362-475 | Pages are handled independently and in order: the records of `a + b` are those of `a` followed by those of `b` |
| NameParser.ExtractNamesOne | backend/app.py:362-475 | With an API key, a single page yields exactly that page's records |
| KeywordMatch.FirstNodeWith | backend/bigtech/signals.py:43 | `soup.find` gives nothing exactly when no node contains the needle (ignoring case); otherwise the first node in order that does |
| KeywordMatch.MatchedEntries | backend/bigtech/signals.py:29-30 | The matched table rows are exactly the rows whose needle the page text mentions, in table order |
| KeywordMatch.MatchedIndex | backend/bigtech/signals.py:29-30 | A mentioned table row appears among the matched rows |
| KeywordMatch.MatchedRow | backend/ut_alumni/signals.py:24-27 | Every matched record comes from a row of the keyword table |
| KeywordMatch.TwoRowsMatched | backend/bigtech/signals.py:29-30 | Two different mentioned rows occupy two different matched positions |
| KeywordMatch.ParentSnippet | backend/ut_alumni/signals.py:26-27 | The first 240 characters of the first matching node's parent text; the needle, cut to 240, when no node matches or the matching node has no parent |
| KeywordMatch.NodeMatchIsPageMatch | backend/bigtech/signals.py:26-30 | A lower-case needle with non-blank ends that some node contains is also found in the joined page text |
| KeywordMatch.StrippedNodeOccurs | backend/bigtech/signals.py:26 | Such a needle survives stripping the node text |
| KeywordMatch.LowerStrip | backend/bigtech/signals.py:26-30 | Lower-casing commutes with stripping |
| KeywordMatch.OccursInJoinedPart | backend/bigtech/signals.py:26 | An occurrence in one part is an occurrence in the space-joined text |
| BigTechSignals.FindSnippet | backend/bigtech/signals.py:42-50 | `_find_snippet` is None exactly when no node contains the needle; otherwise the first such node's parent text, or its own stripped text when it has no parent, cut to 240 characters |
| BigTechSignals.SnippetFromNode | backend/bigtech/signals.py:36-50 | A record's snippet is the first 240 characters of the matching node's parent text, or of its own stripped text without a parent; the needle when no node matches or that text is empty |
| BigTechSignals.ExtractSignals | backend/bigtech/signals.py:24-39 | One record per mentioned keyword row, in table order, typed with that row's category, carrying the URL, source "html" and `_find_snippet`'s text, or the needle when that is missing or empty |
| BigTechSignals.NeedlesFit | backend/bigtech/signals.py:6-21 | Every keyword is non-empty and shorter than a snippet |
| BigTechSignals.SnippetsBounded | backend/bigtech/signals.py:36-50 | Every snippet is non-empty and at most 240 characters, and is the needle itself when no node contains it |
| BigTechSignals.DevRelReported | backend/bigtech/signals.py:10-11 | A page mentioning both "DevRel" and "Developer Relations" gets two records of type "Developer Relations" |
| UtAlumniSignals.ExtractDonorSignals | backend/ut_alumni/signals.py:19-33 | One record per mentioned keyword row, in table order, tagged with that row's tag, carrying the URL and the row needle's parent-text snippet (at most 240 characters) |
| UtAlumniSignals.SnippetSource | backend/ut_alumni/signals.py:26-27 | A snippet is the first 240 characters of the matching node's parent text, or the needle when no node matches or the node has no parent |
| UtAlumniSignals.TableRow | backend/ut_alumni/signals.py:6-16 | Every needle fits in a snippet, and only "Alumni" is reported under a tag other than itself ("UT Alumni") |
| UtAlumniSignals.AlumniTagged | backend/ut_alumni/signals.py:7 | A page mentioning "Alumni" gets a record tagged "UT Alumni" |
| VcSignals.ExtractPartnershipSignals | backend/vc_partnerships/signals.py:20-34 | One record per mentioned keyword row, in table order, typed with that row's category, carrying the company domain, the URL and the row needle's parent-text snippet (at most 240 characters) |
| VcSignals.SnippetFallsBackToNeedle | backend/vc_partnerships/signals.py:26-27 | A needle no node contains is its own snippet |
| VcSignals.SnippetFromParent | backend/vc_partnerships/signals.py:26-27 | A record's snippet is the first 240 characters of the matching node's parent text, or the needle when the node has no parent |
| VcSignals.TableRow | backend/vc_partnerships/signals.py:6-17 | Every needle fits in a snippet, and only "DevRel" is reported under a type other than itself ("Developer Relations") |
| VcSignals.DevRelReported | backend/vc_partnerships/signals.py:12-13 | "DevRel" and "Developer Relations" both yield "Developer Relations" records, two of them |
| Clay.WebhookFor | backend/common/clients/clay_client.py:26-31 | An unknown pipeline has no webhook; a known one uses its own URL when truthy, else the generic URL |
| Clay.NewClient | backend/common/clients/clay_client.py:9-16 | The JSON content type is always set, and an `Authorization: Bearer` header exactly when the API key is truthy |
| Clay.ClayFor | backend/common/clients/clay_client.py:24-36 | A client exists iff the pipeline is known and its own or the generic webhook is truthy. It then has a non-empty URL, the configured timeout, and auth exactly when the key is truthy; otherwise it fails with the missing-webhook error |
| Clay.SpecificWebhookPreferred | backend/common/clients/clay_client.py:26-31 | The pipeline's own webhook wins whenever it is set |
| Clay.GenericWebhookFallback | backend/common/clients/clay_client.py:26-32 | Without a usable pipeline webhook, the generic one is used |
| Clay.IngestRequest | backend/common/clients/clay_client.py:18-19 | The POST goes to the webhook with the client's headers and timeout, and its body is exactly `{"records": records}` |
| Clay.IngestResult | backend/common/clients/clay_client.py:19-21 | A 4xx/5xx status fails; an empty body gives `{}`; otherwise the decoded JSON |
| VcOrchestrator.FilterSeriesAPlus | backend/vc_partnerships/orchestrator.py:19-20 | Exactly the companies at Series A to E, in order and untouched |
| VcOrchestrator.FilterSeriesAPlusIdempotent | backend/vc_partnerships/orchestrator.py:19-20 | Filtering twice is filtering once |
| VcOrchestrator.Tables | backend/vc_partnerships/orchestrator.py:44-49 | Missing or empty table maps fall back to the four default tables |
| VcOrchestrator.CompanyPages | backend/vc_partnerships/orchestrator.py:63 | Two pages under `https://<domain>/`: `partners` first, then `community` |
| VcOrchestrator.CompanyPagePaths | backend/vc_partnerships/orchestrator.py:63 | For a plain host name the two pages are the site paths `/partners` and `/community` |
| VcOrchestrator.CrawlPortfolios | backend/vc_partnerships/orchestrator.py:11-16 | One record per URL, in order, with exactly the keys `portfolio_url` (the URL) and `raw_html_len` (canonical decimal digits whose value is the fetched HTML's length) |
| VcOrchestrator.FindCompanySignals | backend/vc_partnerships/orchestrator.py:23-34 | One "CrawlItems" record per page, in order, with the domain, the page and `items=` followed by the decimal digits of the crawl's item count |
| VcOrchestrator.SignalRecords | backend/vc_partnerships/orchestrator.py:64-67 | One record per signal, in order, with exactly the four signal keys, from which each signal reads back unchanged |
| VcOrchestrator.SignalRecord | backend/vc_partnerships/orchestrator.py:64-67 | A stored signal record has exactly the four signal keys and reads back into the same signal |
| VcOrchestrator.IngestToClay | backend/vc_partnerships/orchestrator.py:37-40 | Succeeds exactly when the "vc" client can be built, failing with its error otherwise, even with no records; with no records nothing is posted; otherwise exactly one POST of the records |
| VcOrchestrator.CompanyActions | backend/vc_partnerships/orchestrator.py:59-67 | A company without a domain does nothing; with a domain, a missing signals table is a `KeyError`, and otherwise it succeeds exactly when the "vc" Clay client can be built |
| VcOrchestrator.AllCompanyActions | backend/vc_partnerships/orchestrator.py:59-67 | No companies, no actions; the loop succeeds exactly when every company's handling succeeds |
| VcOrchestrator.AllCompanyActionsOne | backend/vc_partnerships/orchestrator.py:59-67 | One company alone gives exactly that company's actions |
| VcOrchestrator.AllCompanyActionsAppend | backend/vc_partnerships/orchestrator.py:59-67 | Companies are handled in order: the actions for `a + b` are those for `a`, then those for `b`, and the first failure in that order is the result |
| VcOrchestrator.PipelineWith | backend/vc_partnerships/orchestrator.py:43-67 | Without a "portfolios" table the run fails; otherwise the first action upserts the crawled portfolios. With no Series A+ companies that is all; otherwise it succeeds iff the companies table exists and every company succeeds, and then the upsert of the filtered companies is followed by exactly the companies' actions |
| VcOrchestrator.RunPipeline | backend/vc_partnerships/orchestrator.py:43-67 | Without a "portfolios" table the run fails with `KeyError`. Otherwise, because the company list is empty, the run's only action is the upsert of the crawled portfolios to that table |
| VcOrchestrator.RunPipelineOnlyStoresPortfolios | backend/vc_partnerships/orchestrator.py:51-59 | Since the company list is always empty, a run does exactly one thing: upsert the crawled portfolios |
| VcOrchestrator.DefaultRunTargetsVcPortfolios | backend/vc_partnerships/orchestrator.py:44-52 | With no tables given, the portfolios go to "vc_portfolios" |
| VcOrchestrator.CompanyWithDomainIsProbed | backend/vc_partnerships/orchestrator.py:59-67 | A company with a domain has its two pages crawled; their signals are upserted to the signals table and then posted to Clay |
| Text.Decimal | backend/vc_partnerships/orchestrator.py:15 | `str(n)`: non-empty canonical decimal digits (no leading zero except for 0 itself) whose value is `n` |

## Left out

- Network, browser and storage I/O are parameters or actions, not performed. This covers the HEAD probes, homepage GET, Playwright fetch, Firecrawl crawl, Supabase upsert and Clay POST.
- Streamlit UI: the status boxes, messages, progress bar, the `time.sleep(0.5)` between pages, and the app's page layout.
- HTML parsing (BeautifulSoup) is abstracted. A page is its text nodes with their parent's text, the anchors with `href` and text, or the pagination and `rel=next` href lists. A parent's text is not tied to the node's own text.
- The branch where the HTML parser cannot be imported (`discover_pagination_urls` returning only the seed) is not modelled.
- `urljoin` is an abstract function. Relative and absolute URL resolution are not modelled. In the router it is partial: `None` stands for the `ValueError` that `urlsplit` raises on a malformed host such as `[abc`.
- Lower-casing and `isdigit` are ASCII-only. Unicode case mapping is not modelled.
- `str.splitlines` is modelled as splitting at `\n`. The other line separators (`\r`, `\x0b`, ...) are not modelled.
- Prompt wording is left out. Each language-model call is a function of the variable content embedded in its prompt.
- The Gemini agent set-up and any error it raises are not modelled. Inside a page's `try` block, only the company-name fallback's `IndexError` is modelled: the page contributes nothing.
- The `GOOGLE_API_KEY` environment check is a boolean parameter.
- Exceptions are modelled as `Failure` results. The actions a run performed before failing are not returned.
- RateLimiter.Check: requires `rpm >= 1`. With `rpm <= 0` the source either indexes an empty deque or never admits.
- RateLimiter.Allow: the clock is a finite list of readings. Running out of readings returns `None`, a case the real clock never has.
- The module-global limiter deque is an explicit queue threaded through the calls.
- `Settings`: only the Clay fields and the request timeout are modelled. `load_settings` reads the environment and is left out.
- VcOrchestrator.PipelineWith: the storage and crawl clients are treated as always configured and always answering. `upsert_records` builds its client through `get_supabase`, which raises `RuntimeError` when the Supabase URL or both keys are missing (backend/common/clients/supabase_client.py:11-19), and it raises on an upsert error. `find_company_signals` builds its client through `get_firecrawl`, which raises without a Firecrawl API key (backend/common/clients/firecrawl_client.py:36-46), and the crawl and the Clay POST raise on HTTP errors. None of these failures is modelled, so a run that the model reports as a success can fail in the source. In particular, VcOrchestrator.RunPipelineOnlyStoresPortfolios promises success only under that assumption.
- VcOrchestrator.CompanyActions: company records are string maps. A `domain` key present with value `None` cannot be expressed, and is treated like a missing key.
- Clay.IngestResult: JSON decoding is an abstract function.
- Pagination.DiscoverPages: keeps `urljoin` total. The `ValueError` that `discover_pagination_urls` could raise from it, with no handler up to `scrape_with_pagination`, is not modelled.
- VcOrchestrator.AllCompanyActions: which company's error a failed loop reports is stated through `AllCompanyActionsAppend` and `AllCompanyActionsOne`, not in the function's own contract.
- Clay.NewClient: models only the headers the client sets itself. A `requests.Session` also sends its default `User-Agent`, `Accept`, `Accept-Encoding` and `Connection` headers.
- RateLimiter: `time.time()` floats are modelled as exact `real` numbers. Floating-point rounding of the stamps, the differences and the sleep is not modelled.
- KeywordMatch: a page is one list of text nodes, used both for the page text and for the node search. In bs4, `get_text` skips comment, script and stylesheet strings while `find(string=...)` searches them, so a snippet can come from a `<script>` that the page text does not mention. KeywordMatch.NodeMatchIsPageMatch holds only for this one-list abstraction.

## Findings

| source | as written | input that shows it | evidently intended | confidence | as-written member | corrected member |
|---|---|---|---|---|---|---|
| backend/app.py:153-162 | `first_hit` builds each URL with `urljoin` before its `try`, so a malformed base raises out of `route_pages`, and the fund loop at backend/app.py:751 has no handler | domain `[abc`: `urljoin("https://[abc/", "team")` raises `ValueError` (invalid IPv6 URL) | an unbuildable URL is passed over like a failed probe, and routing returns (None, None) when nothing hits | not executed | Router.BadDomainRaises | Router.RouteGuardedGracefulAbsence |
| backend/app.py:192-212 | the anchor loop sits inside a bare `try`, so a raise mid-loop returns the lists gathered so far, not de-duplicated, sorted or capped | homepage anchors `/team`, `/team`, `//[x/team` | an anchor that cannot be resolved is skipped and the shortlists are still de-duplicated, sorted and capped at 15 | not executed | Router.AbortedDiscoveryRepeats | Router.DiscoverGuardedShortlist |
