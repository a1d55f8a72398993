/**
 * `BlogScraper.scrape_all_companies` and `_scrape_company_blog`: every
 * configured site is fetched and scanned in turn, and the result maps each
 * site's name to its recent posts.
 *
 * The outside world is a parameter: `fetch` is the HTTP request (a body, or
 * the `None` `_make_request` returns on any failure), `parse` is
 * BeautifulSoup's parse of a body, `netloc` is `urlparse(url).netloc` (`None`
 * where it raises), `join` is `urljoin` and `stamp` the `scraped_at` text.
 * The cutoff is computed once by the caller, before any site is visited.
 */
module Scraper {
  import opened Maybe
  import opened Dates
  import opened Html
  import opened Extract
  import opened Scanner

  /** One entry of `self.companies`; every site is read with `_parse_generic_blog`. */
  datatype SiteConfig = SiteConfig(name: string, url: string)

  /** `_make_request(url)`: the response body, or `None` after any network or HTTP error. */
  datatype FetchOutcome = Fetched(body: seq<bv8>) | Failed

  datatype World = World(fetch: string -> FetchOutcome, parse: seq<bv8> -> Node,
                         netloc: string -> Option<string>, join: Joiner, stamp: string)

  /** The sites the scraper is configured with, in configuration order. */
  const Companies: seq<SiteConfig> := [
    SiteConfig("TechCrunch AI", "https://techcrunch.com/category/artificial-intelligence/"),
    SiteConfig("VentureBeat AI", "https://venturebeat.com/ai/"),
    SiteConfig("The Verge AI", "https://www.theverge.com/ai-artificial-intelligence"),
    SiteConfig("Ars Technica", "https://arstechnica.com/tag/artificial-intelligence/"),
    SiteConfig("MIT Technology Review", "https://www.technologyreview.com/topic/artificial-intelligence/"),
    SiteConfig("AI News", "https://www.artificialintelligence-news.com/")
  ]

  /** What `_scrape_company_blog(name, url, parser, cutoff)` returns. */
  function SitePosts(url: string, cutoff: DateTime, w: World): seq<Post> {
    match w.fetch(url)
    case Failed => []
    case Fetched(body) => Scan(w.parse(body), url, w.netloc(url), cutoff, w.join, w.stamp)
  }

  /** `_scrape_company_blog`: no response gives no posts; otherwise the page is scanned. */
  method ScrapeCompanyBlog(name: string, url: string, cutoff: DateTime, w: World)
    returns (posts: seq<Post>)
    ensures posts == SitePosts(url, cutoff, w)
  {
    var response := w.fetch(url);
    if response.Failed? {
      return [];
    }
    posts := ParseGenericBlog(w.parse(response.body), url, w.netloc(url), cutoff, w.join, w.stamp);
  }

  /** The `results` dictionary, as its (name, posts) items in insertion order. */
  function ScrapeAll(configs: seq<SiteConfig>, cutoff: DateTime, w: World): seq<(string, seq<Post>)>
    decreases |configs|
  {
    if configs == [] then []
    else
      var n := |configs| - 1;
      ScrapeAll(configs[..n], cutoff, w) + [(configs[n].name, SitePosts(configs[n].url, cutoff, w))]
  }

  /** `scrape_all_companies`: one site after the other, each result stored under
      the site's name. */
  method ScrapeAllCompanies(configs: seq<SiteConfig>, cutoff: DateTime, w: World)
    returns (results: seq<(string, seq<Post>)>)
    ensures results == ScrapeAll(configs, cutoff, w)
  {
    results := [];
    for i := 0 to |configs|
      invariant results == ScrapeAll(configs[..i], cutoff, w)
    {
      assert configs[..i + 1][..i] == configs[..i];
      var posts := ScrapeCompanyBlog(configs[i].name, configs[i].url, cutoff, w);
      results := results + [(configs[i].name, posts)];
    }
    assert configs[..|configs|] == configs;
  }

  /** Every site gets exactly one entry, in configuration order, holding what that
      site alone yields: a failing site cannot disturb the entries of the others. */
  lemma {:induction false} OneEntryPerSite(configs: seq<SiteConfig>, cutoff: DateTime, w: World)
    ensures |ScrapeAll(configs, cutoff, w)| == |configs|
    ensures forall i :: 0 <= i < |configs| ==>
      ScrapeAll(configs, cutoff, w)[i] == (configs[i].name, SitePosts(configs[i].url, cutoff, w))
    decreases |configs|
  {
    if configs != [] {
      var n := |configs| - 1;
      var front := configs[..n];
      OneEntryPerSite(front, cutoff, w);
      var all := ScrapeAll(configs, cutoff, w);
      assert all == ScrapeAll(front, cutoff, w) + [(configs[n].name, SitePosts(configs[n].url, cutoff, w))];
      forall i | 0 <= i < |configs|
        ensures all[i] == (configs[i].name, SitePosts(configs[i].url, cutoff, w))
      {
        if i < n {
          assert all[i] == ScrapeAll(front, cutoff, w)[i];
          assert front[i] == configs[i];
        }
      }
    }
  }

  /** A site whose request fails maps to no posts; a site yields at most 15
      posts, each with a title of more than 10 characters and a date that passes
      the cutoff. */
  lemma SiteOutcome(url: string, cutoff: DateTime, w: World)
    ensures w.fetch(url).Failed? ==> SitePosts(url, cutoff, w) == []
    ensures |SitePosts(url, cutoff, w)| <= SelectorCap
    ensures forall p :: p in SitePosts(url, cutoff, w) ==> |p.title| > 10 && IsRecent(p.date, cutoff)
  {
    if w.fetch(url).Fetched? {
      var doc := w.parse(w.fetch(url).body);
      ScanBounds(doc, url, w.netloc(url), cutoff, w.join, w.stamp);
      if w.netloc(url).Some? {
        var _ := KeptIndices(Candidates(doc), url, CompanyLabel(w.netloc(url).value), cutoff, w.join, w.stamp);
      }
    }
  }

  /** The configured site names are distinct, so the result has one key per site. */
  lemma CompanyNamesDistinct()
    ensures forall i, j :: 0 <= i < j < |Companies| ==> Companies[i].name != Companies[j].name
  {
    var names := ["TechCrunch AI", "VentureBeat AI", "The Verge AI", "Ars Technica",
                  "MIT Technology Review", "AI News"];
    assert forall i :: 0 <= i < |Companies| ==> Companies[i].name == names[i];
    assert forall i, j :: 0 <= i < j < |names| ==> names[i][0] != names[j][0] || |names[i]| != |names[j]|;
  }
}
