/** The VC-partnerships pipeline (`run_pipeline` and its helpers): crawl the
    portfolio pages, keep Series A+ companies, probe each company's partner and
    community pages, and store and forward the resulting signals. Crawling,
    storage and the Clay post are represented by the actions the pipeline
    would take, in order; page fetches and crawls are parameters. */
module VcOrchestrator {
  import opened Wrappers
  import opened Seqs
  import opened Text
  import Clay
  import VcSignals
  import Router

  /** A company record as the source keeps it: string keys and values. */
  type Company = map<string, string>

  const SeriesAPlus: set<string> := {"Series A", "Series B", "Series C", "Series D", "Series E"}

  predicate IsSeriesAPlus(c: Company) {
    "funding_stage" in c && c["funding_stage"] in SeriesAPlus
  }

  /** `filter_series_a_plus(companies)`: the companies at Series A to E, untouched
      and in their original order; a missing or any other stage drops a company. */
  function FilterSeriesAPlus(companies: seq<Company>): (r: seq<Company>)
    ensures Subseq(r, companies)
    ensures forall c :: c in r <==> c in companies && IsSeriesAPlus(c)
    ensures |r| == Count(IsSeriesAPlus, companies)
  {
    FilterCount(IsSeriesAPlus, companies);
    Filter(IsSeriesAPlus, companies)
  }

  /** Filtering an already filtered list changes nothing. */
  lemma FilterSeriesAPlusIdempotent(companies: seq<Company>)
    ensures FilterSeriesAPlus(FilterSeriesAPlus(companies)) == FilterSeriesAPlus(companies)
  {
    FilterIdempotent(IsSeriesAPlus, companies);
  }

  /** The storage tables used when the caller passes none (or an empty map). */
  const DefaultTables: map<string, string> := map[
    "portfolios" := "vc_portfolios",
    "companies" := "portfolio_companies",
    "signals" := "partnership_signals",
    "contacts" := "contacts"
  ]

  /** `supabase_tables or {...}`. */
  function Tables(supabaseTables: Option<map<string, string>>): (t: map<string, string>)
    ensures supabaseTables.None? || supabaseTables.value == map[] ==> t == DefaultTables
    ensures supabaseTables.Some? && supabaseTables.value != map[] ==> t == supabaseTables.value
  {
    if supabaseTables.Some? && supabaseTables.value != map[] then supabaseTables.value else DefaultTables
  }

  /** The pages probed for one company: its partners page, then its community page. */
  function CompanyPages(domain: string): (pages: seq<string>)
    ensures |pages| == 2
    ensures forall k :: 0 <= k < 2 ==> StartsWith(pages[k], "https://" + domain + "/")
    ensures StartsWith(pages[0], "https://" + domain + "/") && pages[0][|"https://" + domain + "/"|..] == "partners"
    ensures StartsWith(pages[1], "https://" + domain + "/") && pages[1][|"https://" + domain + "/"|..] == "community"
  {
    var root := "https://" + domain + "/";
    assert root + "partners" == "https://" + domain + "/partners";
    assert root + "community" == "https://" + domain + "/community";
    ["https://" + domain + "/partners", "https://" + domain + "/community"]
  }

  /** For a plain host name the two pages are the site's `/partners` and
      `/community` paths, as the router reads paths. */
  lemma CompanyPagePaths(domain: string)
    requires '/' !in domain
    ensures Router.PathOf(CompanyPages(domain)[0]) == "/partners"
    ensures Router.PathOf(CompanyPages(domain)[1]) == "/community"
  {
    Router.PathOfUrl("https:", domain, "partners");
    Router.PathOfUrl("https:", domain, "community");
    assert "https:" + "//" + domain + "/" + "partners" == CompanyPages(domain)[0];
    assert "https:" + "//" + domain + "/" + "community" == CompanyPages(domain)[1];
  }

  /** `crawl_vc_portfolios(urls)`: one record per URL with the length of its
      fetched HTML; `htmlLength` stands for fetching the page. */
  function CrawlPortfolios(urls: seq<string>, htmlLength: string -> nat): (r: seq<Clay.Record>)
    ensures |r| == |urls|
    ensures forall k :: 0 <= k < |r| ==>
              && r[k].Keys == {"portfolio_url", "raw_html_len"} && r[k]["portfolio_url"] == urls[k]
              && IsDecimal(r[k]["raw_html_len"]) && DigitsValue(r[k]["raw_html_len"]) == htmlLength(urls[k])
  {
    seq(|urls|, k requires 0 <= k < |urls| =>
      map["portfolio_url" := urls[k], "raw_html_len" := Decimal(htmlLength(urls[k]))])
  }

  /** `find_company_signals(company_domain, pages)`: one "CrawlItems" record per
      page, in page order, whose snippet reports the crawl's item count;
      `itemCount` stands for crawling the page. */
  function FindCompanySignals(domain: string, pages: seq<string>, itemCount: string -> nat): (r: seq<VcSignals.PartnershipSignal>)
    ensures |r| == |pages|
    ensures forall k :: 0 <= k < |r| ==>
              && r[k].companyDomain == domain && r[k].url == pages[k] && r[k].signalType == "CrawlItems"
              && StartsWith(r[k].snippet, "items=")
              && IsDecimal(r[k].snippet[6..]) && DigitsValue(r[k].snippet[6..]) == itemCount(pages[k])
  {
    assert forall n: nat :: ("items=" + Decimal(n))[6..] == Decimal(n);
    seq(|pages|, k requires 0 <= k < |pages| =>
      VcSignals.PartnershipSignal(domain, pages[k], "CrawlItems", "items=" + Decimal(itemCount(pages[k]))))
  }

  /** How a stored record carries the count: canonical decimal digits, as `str(n)` writes them. */
  predicate IsDecimal(s: string) {
    && |s| > 0
    && (forall i :: 0 <= i < |s| ==> IsDigit(s[i]))
    && (|s| > 1 ==> s[0] != '0')
  }

  /** A signal as the record stored and sent to Clay: the four keys, from which
      the signal can be read back unchanged. */
  function SignalRecord(s: VcSignals.PartnershipSignal): (r: Clay.Record)
    ensures r.Keys == {"company_domain", "url", "signal_type", "snippet"}
    ensures VcSignals.PartnershipSignal(r["company_domain"], r["url"], r["signal_type"], r["snippet"]) == s
  {
    map["company_domain" := s.companyDomain, "url" := s.url, "signal_type" := s.signalType, "snippet" := s.snippet]
  }

  /** The records of a list of signals, one per signal in order. */
  function SignalRecords(signals: seq<VcSignals.PartnershipSignal>): (r: seq<Clay.Record>)
    ensures |r| == |signals|
    ensures forall k :: 0 <= k < |r| ==>
              && r[k].Keys == {"company_domain", "url", "signal_type", "snippet"}
              && VcSignals.PartnershipSignal(r[k]["company_domain"], r[k]["url"], r[k]["signal_type"], r[k]["snippet"]) == signals[k]
  {
    seq(|signals|, k requires 0 <= k < |signals| => SignalRecord(signals[k]))
  }

  /** What the pipeline does to the outside world. */
  datatype Action =
    | Upsert(table: string, records: seq<Clay.Record>)
    | Post(request: Clay.PostRequest)

  const KeyError := "KeyError"

  /** `ingest_to_clay(records)`: the client is looked up first, so a missing
      webhook fails even with nothing to send; only a non-empty batch is posted. */
  function IngestToClay(settings: Clay.Settings, records: seq<Clay.Record>): (r: Result<seq<Action>, string>)
    ensures r.Success? <==> Clay.ClayFor(settings, "vc").Success?
    ensures r.Failure? ==> r.error == Clay.ClayFor(settings, "vc").error
    ensures r.Success? && records == [] ==> r.value == []
    ensures r.Success? && records != [] ==>
              r.value == [Post(Clay.IngestRequest(Clay.ClayFor(settings, "vc").value, records))]
  {
    match Clay.ClayFor(settings, "vc")
    case Failure(e) => Failure(e)
    case Success(client) =>
      if records == [] then Success([]) else Success([Post(Clay.IngestRequest(client, records))])
  }

  /** The per-company part of `run_pipeline`: companies without a domain are
      skipped; otherwise the company's two pages are crawled and any signals are
      upserted and sent to Clay. */
  function CompanyActions(tables: map<string, string>, settings: Clay.Settings, company: Company,
                          itemCount: string -> nat): (r: Result<seq<Action>, string>)
    ensures ("domain" !in company || company["domain"] == "") ==> r == Success([])
    ensures ("domain" in company && company["domain"] != "") ==>
              && ("signals" !in tables ==> r == Failure(KeyError))
              && ("signals" in tables ==> (r.Success? <==> Clay.ClayFor(settings, "vc").Success?))
  {
    var domain := if "domain" in company then company["domain"] else "";
    if domain == "" then Success([])
    else
      var signals := FindCompanySignals(domain, CompanyPages(domain), itemCount);
      if signals == [] then Success([])
      else if "signals" !in tables then Failure(KeyError)
      else
        match IngestToClay(settings, SignalRecords(signals))
        case Failure(e) => Failure(e)
        case Success(posts) => Success([Upsert(tables["signals"], SignalRecords(signals))] + posts)
  }

  /** The loop over the companies: each company's actions in turn, stopping at
      the first company whose handling raises. */
  function AllCompanyActions(tables: map<string, string>, settings: Clay.Settings, companies: seq<Company>,
                             itemCount: string -> nat): (r: Result<seq<Action>, string>)
    ensures companies == [] ==> r == Success([])
    ensures r.Success? <==> forall k :: 0 <= k < |companies| ==> CompanyActions(tables, settings, companies[k], itemCount).Success?
    decreases |companies|
  {
    if |companies| == 0 then Success([])
    else
      var tail := companies[1..];
      assert forall k :: 1 <= k < |companies| ==> companies[k] == tail[k - 1];
      var head := CompanyActions(tables, settings, companies[0], itemCount);
      match head
      case Failure(e) => Failure(e)
      case Success(first) =>
        match AllCompanyActions(tables, settings, tail, itemCount)
        case Failure(e) => Failure(e)
        case Success(rest) => Success(first + rest)
  }

  /** The actions for one company alone are that company's actions. */
  lemma AllCompanyActionsOne(tables: map<string, string>, settings: Clay.Settings, company: Company,
                             itemCount: string -> nat)
    ensures AllCompanyActions(tables, settings, [company], itemCount) == CompanyActions(tables, settings, company, itemCount)
  {
    var r := CompanyActions(tables, settings, company, itemCount);
    assert [company][1..] == [];
    if r.Success? {
      assert r.value + [] == r.value;
    }
  }

  /** Companies are handled in list order: the actions for `a + b` are those for
      `a` followed by those for `b`, and the first failure, in that order, wins. */
  lemma {:induction false} AllCompanyActionsAppend(tables: map<string, string>, settings: Clay.Settings,
                                                   a: seq<Company>, b: seq<Company>, itemCount: string -> nat)
    ensures var ra := AllCompanyActions(tables, settings, a, itemCount);
            var rb := AllCompanyActions(tables, settings, b, itemCount);
            AllCompanyActions(tables, settings, a + b, itemCount)
            == (if ra.Failure? then ra else if rb.Failure? then rb else Success(ra.value + rb.value))
    decreases |a|
  {
    if |a| == 0 {
      assert a + b == b;
      var rb := AllCompanyActions(tables, settings, b, itemCount);
      if rb.Success? {
        assert [] + rb.value == rb.value;
      }
    } else {
      assert (a + b)[0] == a[0] && (a + b)[1..] == a[1..] + b;
      AllCompanyActionsAppend(tables, settings, a[1..], b, itemCount);
      var r0 := CompanyActions(tables, settings, a[0], itemCount);
      var ra' := AllCompanyActions(tables, settings, a[1..], itemCount);
      var rb := AllCompanyActions(tables, settings, b, itemCount);
      if r0.Success? && ra'.Success? && rb.Success? {
        assert r0.value + (ra'.value + rb.value) == (r0.value + ra'.value) + rb.value;
      }
    }
  }

  /** `run_pipeline` once the company list is known: portfolios are crawled and
      upserted, the Series A+ companies upserted if any, then each processed. */
  function PipelineWith(portfolioUrls: seq<string>, supabaseTables: Option<map<string, string>>,
                        companies: seq<Company>, settings: Clay.Settings,
                        htmlLength: string -> nat, itemCount: string -> nat): (r: Result<seq<Action>, string>)
    ensures "portfolios" !in Tables(supabaseTables) ==> r == Failure(KeyError)
    ensures r.Success? ==> |r.value| >= 1 && r.value[0] == Upsert(Tables(supabaseTables)["portfolios"], CrawlPortfolios(portfolioUrls, htmlLength))
    ensures "portfolios" in Tables(supabaseTables) && FilterSeriesAPlus(companies) == [] ==>
              r == Success([Upsert(Tables(supabaseTables)["portfolios"], CrawlPortfolios(portfolioUrls, htmlLength))])
    ensures FilterSeriesAPlus(companies) != [] ==>
              (r.Success? <==> && "portfolios" in Tables(supabaseTables) && "companies" in Tables(supabaseTables)
                               && AllCompanyActions(Tables(supabaseTables), settings, FilterSeriesAPlus(companies), itemCount).Success?)
    ensures r.Success? && FilterSeriesAPlus(companies) != [] ==>
              && |r.value| >= 2
              && r.value[1] == Upsert(Tables(supabaseTables)["companies"], FilterSeriesAPlus(companies))
              && Success(r.value[2..]) == AllCompanyActions(Tables(supabaseTables), settings, FilterSeriesAPlus(companies), itemCount)
  {
    var tables := Tables(supabaseTables);
    if "portfolios" !in tables then Failure(KeyError)
    else
      var first := Upsert(tables["portfolios"], CrawlPortfolios(portfolioUrls, htmlLength));
      var filtered := FilterSeriesAPlus(companies);
      if filtered != [] && "companies" !in tables then Failure(KeyError)
      else
        var stored := if filtered != [] then [Upsert(tables["companies"], filtered)] else [];
        assert filtered == [] ==> [first] + stored + [] == [first];
        match AllCompanyActions(tables, settings, filtered, itemCount)
        case Failure(e) => Failure(e)
        case Success(rest) => Success([first] + stored + rest)
  }

  /** `run_pipeline(vc_portfolio_urls, supabase_tables)`: as written, the company
      list is the empty list, so a run upserts the crawled portfolios and does
      nothing else, or fails on a missing "portfolios" table. */
  function RunPipeline(portfolioUrls: seq<string>, supabaseTables: Option<map<string, string>>,
                       settings: Clay.Settings, htmlLength: string -> nat, itemCount: string -> nat): (r: Result<seq<Action>, string>)
    ensures "portfolios" !in Tables(supabaseTables) ==> r == Failure(KeyError)
    ensures "portfolios" in Tables(supabaseTables) ==>
              r == Success([Upsert(Tables(supabaseTables)["portfolios"], CrawlPortfolios(portfolioUrls, htmlLength))])
  {
    assert FilterSeriesAPlus([]) == [];
    PipelineWith(portfolioUrls, supabaseTables, [], settings, htmlLength, itemCount)
  }

  /** Because the company list is always empty, a run only upserts the crawled
      portfolios: nothing is stored for companies or signals and nothing reaches
      Clay, whatever the settings. */
  lemma RunPipelineOnlyStoresPortfolios(portfolioUrls: seq<string>, supabaseTables: Option<map<string, string>>,
                                        settings: Clay.Settings, htmlLength: string -> nat, itemCount: string -> nat)
    requires "portfolios" in Tables(supabaseTables)
    ensures RunPipeline(portfolioUrls, supabaseTables, settings, htmlLength, itemCount)
            == Success([Upsert(Tables(supabaseTables)["portfolios"], CrawlPortfolios(portfolioUrls, htmlLength))])
  {
    var tables := Tables(supabaseTables);
    var first := Upsert(tables["portfolios"], CrawlPortfolios(portfolioUrls, htmlLength));
    assert FilterSeriesAPlus([]) == [];
    assert AllCompanyActions(tables, settings, [], itemCount) == Success([]);
    assert [first] + [] + [] == [first];
  }

  /** With the default tables the portfolios go to "vc_portfolios". */
  lemma DefaultRunTargetsVcPortfolios(portfolioUrls: seq<string>, settings: Clay.Settings,
                                      htmlLength: string -> nat, itemCount: string -> nat)
    ensures RunPipeline(portfolioUrls, None, settings, htmlLength, itemCount)
            == Success([Upsert("vc_portfolios", CrawlPortfolios(portfolioUrls, htmlLength))])
  {
    RunPipelineOnlyStoresPortfolios(portfolioUrls, None, settings, htmlLength, itemCount);
  }

  /** A company with a domain has its two pages probed, and the signals it
      yields are upserted to the signals table and then posted to the "vc" webhook. */
  lemma CompanyWithDomainIsProbed(tables: map<string, string>, settings: Clay.Settings, company: Company,
                                  itemCount: string -> nat)
    requires "domain" in company && company["domain"] != ""
    requires "signals" in tables && Clay.ClayFor(settings, "vc").Success?
    ensures var signals := FindCompanySignals(company["domain"], CompanyPages(company["domain"]), itemCount);
            CompanyActions(tables, settings, company, itemCount)
            == Success([Upsert(tables["signals"], SignalRecords(signals)),
                        Post(Clay.IngestRequest(Clay.ClayFor(settings, "vc").value, SignalRecords(signals)))])
  {
    var signals := FindCompanySignals(company["domain"], CompanyPages(company["domain"]), itemCount);
    assert |signals| == 2;
    var records := SignalRecords(signals);
    assert records != [];
    var post := Post(Clay.IngestRequest(Clay.ClayFor(settings, "vc").value, records));
    assert IngestToClay(settings, records) == Success([post]);
    assert [Upsert(tables["signals"], records)] + [post] == [Upsert(tables["signals"], records), post];
  }
}
