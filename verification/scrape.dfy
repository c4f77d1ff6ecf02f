/**
 * Cache-through page retrieval (scrape.py). Network retrieval and HTML
 * parsing are foreign code, so they are passed in as plain functions.
 */
module Scrape {
  import opened Options
  import opened Cache

  /** A parsed document as the extractors see it: each XPath query yields its list of text nodes. */
  type Page = string -> seq<string>

  /** The foreign collaborators: `requests.get(url).text` and `html.fromstring`. */
  datatype Web = Web(fetch: string -> string, parse: string -> Page)

  /** `scrape_page` issues a network request exactly when the cache holds no truthy text for the URL. */
  predicate Fetches(store: Store, url: string)
  {
    !Truthy(Get(store, url))
  }

  /** The text `scrape_page` parses: the cached text on a truthy hit, a fresh retrieval otherwise. */
  function SourceText(store: Store, url: string, web: Web): string
  {
    if Fetches(store, url) then web.fetch(url) else Get(store, url).value
  }

  /** `scrape_page(url)`: the parsed page and the cache after the call. */
  function ScrapePage(store: Store, url: string, web: Web): (r: (Page, Store))
    ensures r.0 == web.parse(SourceText(store, url, web))
    ensures store.Enabled? ==> Get(r.1, url) == Some(SourceText(store, url, web))
    ensures store.Enabled? ==> r.1.Enabled? && r.1.entries - {url} == store.entries - {url}
    ensures !Fetches(store, url) ==> r.1 == store
    ensures store.Disabled? ==> r.1 == Disabled
  {
    if Fetches(store, url) then
      var text := web.fetch(url);
      (web.parse(text), Set(store, url, text, None))
    else
      (web.parse(Get(store, url).value), store)
  }

  /** A cache miss (no entry, or an empty one) retrieves the page and writes it back under its URL with the default TTL. */
  lemma ScrapeMiss(store: Store, url: string, web: Web)
    requires Fetches(store, url)
    ensures ScrapePage(store, url, web).0 == web.parse(web.fetch(url))
    ensures store.Enabled? ==> ScrapePage(store, url, web).1.Enabled?
    ensures store.Enabled? ==>
              ScrapePage(store, url, web).1.entries[url] == Entry(web.fetch(url), CACHE_TTL)
  {
  }

  /** Scraping the same URL a second time yields the same page and leaves the cache as the first call left it. */
  lemma ScrapeIdempotent(store: Store, url: string, web: Web)
    ensures ScrapePage(ScrapePage(store, url, web).1, url, web) == ScrapePage(store, url, web)
  {
    var (page, after) := ScrapePage(store, url, web);
    if Fetches(store, url) && store.Enabled? {
      assert after == Enabled(store.entries[url := Entry(web.fetch(url), CACHE_TTL)]);
      if web.fetch(url) == "" {
        assert after.entries[url := Entry(web.fetch(url), CACHE_TTL)] == after.entries;
      }
    }
  }

  /**
   * A second scrape of a URL requests it again exactly when the first one
   * did and its text did not stay in the cache: no cache is configured, or
   * the fetched text was empty.
   */
  lemma FetchesAgain(store: Store, url: string, web: Web)
    ensures Fetches(ScrapePage(store, url, web).1, url)
        <==> Fetches(store, url) && (store.Disabled? || web.fetch(url) == "")
  {
  }

  /**
   * How many network requests `k` scrapes of the same URL issue in a row,
   * starting from `store`: none after a cache hit, one when the first
   * fetch is cached, and one per scrape otherwise.
   */
  function Requests(store: Store, url: string, web: Web, k: nat): nat
  {
    if k == 0 || !Fetches(store, url) then 0
    else if store.Enabled? && web.fetch(url) != "" then 1
    else k
  }

  /** Without a cache every scrape is a request. */
  lemma RequestsWithoutCache(store: Store, url: string, web: Web, k: nat)
    requires store.Disabled?
    ensures Requests(store, url, web, k) == k
  {
  }

  /** One more scrape adds one request exactly when the cache it starts from makes it fetch. */
  lemma RequestsStep(store: Store, url: string, web: Web, k: nat, current: Store)
    requires k == 0 ==> current == store
    requires k > 0 ==> current == ScrapePage(store, url, web).1
    ensures Requests(store, url, web, k + 1)
         == Requests(store, url, web, k) + (if Fetches(current, url) then 1 else 0)
  {
    FetchesAgain(store, url, web);
  }

  /** `if page is None: page = scrape_page(url)`: the extractors' optional pre-fetched page. */
  function PageOrScrape(page: Option<Page>, url: string, web: Web, store: Store): (r: (Page, Store))
    ensures page.Some? ==> r.0 == page.value && r.1 == store
    ensures page.None? ==> r == ScrapePage(store, url, web)
  {
    match page
    case Some(p) => (p, store)
    case None => ScrapePage(store, url, web)
  }
}
