/** Pagination discovery: from a seed page's markup, the list of page URLs to
    scrape, seed first. Links are taken from `.pagination a` elements and then
    from `a[rel="next"]` elements; the HTML parser is abstracted into those two
    lists of `href` attributes, and `join` is `urllib.parse.urljoin`. */
module Pagination {
  import opened Wrappers
  import opened Text
  import opened Seqs

  /** The parsed seed page: the raw markup (only its emptiness matters) and the
      `href` attribute (possibly absent) of each selected link, in document order. */
  datatype Markup = Markup(html: string, paginationHrefs: seq<Option<string>>, relNextHrefs: seq<Option<string>>)

  /** Only `/`-rooted hrefs are resolved against the seed URL; others are kept as written. */
  function Resolve(join: (string, string) -> string, base: string, href: string): string {
    if StartsWith(href, "/") then join(base, href) else href
  }

  /** One loop step without the page cap: a present, non-empty href whose resolved
      form starts with "http" and is new is appended. */
  function Absorb(join: (string, string) -> string, base: string, urls: seq<string>, h: Option<string>): (r: seq<string>)
    ensures IsPrefix(urls, r) && |r| <= |urls| + 1
  {
    if !Truthy(h) then urls
    else
      var u := Resolve(join, base, h.value);
      if StartsWith(u, "http") && u !in urls then urls + [u] else urls
  }

  /** The resolved form of every usable (present, non-empty) link, in order. */
  function Resolved(join: (string, string) -> string, base: string, links: seq<Option<string>>): seq<string>
    decreases |links|
  {
    if |links| == 0 then []
    else
      var last := links[|links| - 1];
      Resolved(join, base, links[..|links| - 1])
        + (if Truthy(last) then [Resolve(join, base, last.value)] else [])
  }

  /** The URL list the loop would build with no cap at all. */
  function Walk(join: (string, string) -> string, base: string, links: seq<Option<string>>): (urls: seq<string>)
    ensures |urls| >= 1 && urls[0] == base
    ensures Distinct(urls)
    ensures forall i :: 1 <= i < |urls| ==> StartsWith(urls[i], "http")
    ensures forall i :: 1 <= i < |urls| ==> urls[i] in Resolved(join, base, links)
    ensures |urls| <= |links| + 1
    decreases |links|
  {
    if |links| == 0 then [base]
    else Absorb(join, base, Walk(join, base, links[..|links| - 1]), links[|links| - 1])
  }

  /** Conversely, every usable link that resolves to an http URL ends up in the
      uncapped list: together with `Walk`'s contract, the list holds exactly the
      seed and the distinct http resolutions. */
  lemma {:induction false} WalkComplete(join: (string, string) -> string, base: string, links: seq<Option<string>>, u: string)
    requires u in Resolved(join, base, links) && StartsWith(u, "http")
    ensures u in Walk(join, base, links)
    decreases |links|
  {
    var shorter := links[..|links| - 1];
    var last := links[|links| - 1];
    if u in Resolved(join, base, shorter) {
      WalkComplete(join, base, shorter, u);
    } else {
      assert Truthy(last) && u == Resolve(join, base, last.value);
    }
  }

  /** The list keeps the order in which the links first resolve to each URL:
      of two URLs after the seed, the earlier one first occurs earlier among the
      resolved links. */
  lemma {:induction false} WalkOrder(join: (string, string) -> string, base: string, links: seq<Option<string>>, i: nat, j: nat)
    requires 1 <= i < j < |Walk(join, base, links)|
    ensures var urls := Walk(join, base, links);
            var r := Resolved(join, base, links);
            IndexOf(r, urls[i]) < IndexOf(r, urls[j])
    decreases |links|
  {
    var shorter := links[..|links| - 1];
    var w := Walk(join, base, shorter);
    var urls := Walk(join, base, links);
    var r' := Resolved(join, base, shorter);
    var r := Resolved(join, base, links);
    assert IsPrefix(r', r);
    assert IsPrefix(w, urls);
    if j < |w| {
      WalkOrder(join, base, shorter, i, j);
      assert urls[i] == w[i] && urls[j] == w[j];
      IndexOfPrefix(r', r, w[i]);
      IndexOfPrefix(r', r, w[j]);
    } else {
      var u := urls[j];
      assert w == urls[..j];
      assert u !in w;
      if u in r' {
        WalkComplete(join, base, shorter, u);
      }
      IndexOfBeyond(r', r, u);
      assert urls[i] == w[i];
      IndexOfPrefix(r', r, w[i]);
    }
  }

  /** Walking one more link only ever extends the URL list. */
  lemma WalkStep(join: (string, string) -> string, base: string, links: seq<Option<string>>)
    requires |links| > 0
    ensures IsPrefix(Walk(join, base, links[..|links| - 1]), Walk(join, base, links))
  {
  }

  /** Walking a longer list of links only ever extends the URL list. */
  lemma {:induction false} WalkGrows(join: (string, string) -> string, base: string, links: seq<Option<string>>, n: nat)
    requires n <= |links|
    ensures IsPrefix(Walk(join, base, links[..n]), Walk(join, base, links))
    decreases |links|
  {
    if n == |links| {
      assert links[..n] == links;
    } else {
      var shorter := links[..|links| - 1];
      WalkStep(join, base, links);
      WalkGrows(join, base, shorter, n);
      assert shorter[..n] == links[..n];
    }
  }

  lemma {:induction false} ResolvedGrows(join: (string, string) -> string, base: string, links: seq<Option<string>>, n: nat)
    requires n <= |links|
    ensures IsPrefix(Resolved(join, base, links[..n]), Resolved(join, base, links))
    decreases |links|
  {
    if n == |links| {
      assert links[..n] == links;
    } else {
      var shorter := links[..|links| - 1];
      ResolvedGrows(join, base, shorter, n);
      assert shorter[..n] == links[..n];
    }
  }

  /** `discover_pagination_urls(html, base_url, max_pages)`. The cap is checked only
      after a non-empty href has been handled, so with `maxPages <= 1` the first
      such href can still add a second URL. */
  method DiscoverPages(join: (string, string) -> string, base: string, page: Markup, maxPages: int)
    returns (urls: seq<string>)
    ensures |urls| >= 1 && urls[0] == base
    ensures IsPrefix(urls, Walk(join, base, page.paginationHrefs + page.relNextHrefs))
    ensures page.html == "" ==> urls == [base]
    ensures page.html != "" && maxPages >= 2 ==>
              |urls| == Min(maxPages, |Walk(join, base, page.paginationHrefs + page.relNextHrefs)|)
    ensures maxPages <= 1 ==> |urls| <= 2
    ensures page.html != "" && maxPages <= 1 ==>
              var r := Resolved(join, base, page.paginationHrefs + page.relNextHrefs);
              |r| > 0 && StartsWith(r[0], "http") && r[0] != base ==> |urls| == 2
  {
    urls := [base];
    if page.html == "" {
      return;
    }
    var links := page.paginationHrefs + page.relNextHrefs;
    ghost var seenTruthy := false;
    var i := 0;
    while i < |links|
      invariant 0 <= i <= |links|
      invariant urls == Walk(join, base, links[..i])
      invariant seenTruthy ==> |urls| < maxPages
      invariant !seenTruthy ==> urls == [base]
      invariant !seenTruthy ==> Resolved(join, base, links[..i]) == []
    {
      var h := links[i];
      assert links[..i + 1][..i] == links[..i];
      i := i + 1;
      if !Truthy(h) {
        continue;
      }
      urls := Absorb(join, base, urls, h);
      if |urls| >= maxPages {
        assert maxPages >= 2 ==> |urls| == maxPages;
        break;
      }
      seenTruthy := true;
    }
    if i == |links| {
      assert links[..i] == links;
    }
    WalkGrows(join, base, links, i);
    ResolvedGrows(join, base, links, i);
  }
}
