# Finance Data Scraper API — a Dafny model of the scrape-and-extract core

The Finance Data Scraper API answers REST requests with stock data scraped
from Finviz, StockTwits and Zacks. This project models its core:

- the optional page cache (`cache.py`);
- cache-through page retrieval (`scrape.py`);
- the three extractors, which turn the text nodes of fixed XPath queries
  into statistics tables, sentiment strings, ratings and peer lists
  (`finviz.py`, `stocktwits.py`, `zacks.py`);
- the Finviz REST resource, which filters `fields`, dispatches on the
  service name and maps outcomes to HTTP 200 / 404 / 500 (`resource.py`).

A parsed page is modelled as `Page = string -> seq<string>`. It maps each
XPath constant to the list of text nodes it selects. Network retrieval
(`requests.get(url).text`) and `html.fromstring` are the two functions of
a `Web` record, which the model treats as given. The memcache client is a
`Store`: either `Disabled` (`CACHE is None`) or `Enabled` with a map from
key to text and TTL. Python `None` is `Option.None`. Python truthiness is
written out: `""`, `None`, `[]` and `{}` are false.

Python built-ins whose exact behaviour matters are modelled in `PyText`:

- `str.split(",")`: no trimming, and empty pieces are kept.
- `str.upper()`: ASCII letters only.
- `str.replace("\n", "")`.
- `list.remove(x)`: removes the first occurrence; a ValueError becomes `None`.

Modules: `Options`, `PyText`, `Cache`, `Scrape`, `Finviz`, `Stocktwits`,
`Zacks`, `Resource`, one file each.

The resource threads the cache through its calls, as the source does.
With `fields`, `get_statistics` calls `finviz.get_statistic` once per
name, so it calls `scrape_page` once per name. `Scrape.ScrapeIdempotent`
shows that a second scrape of the same URL gives the same page and leaves
the cache unchanged. `Resource.CollectFieldsScraping` uses this to prove
that every name is looked up on the page of the first scrape. This rests
on one modelling assumption: a fetch is a function of the URL. The
program guarantees it only when the page text is served from the cache.
With no cache, or when the fetched text is empty, every scrape makes a
new request. On the real network those requests can return different
versions of the page. The model counts these requests (`Scrape.Requests`).
With no cache, n field names cost n requests.

## Behaviour of the code worth knowing

- The `Stocktwits` and `Zacks` resource classes are stubs whose methods
  are `pass`. Only the Finviz resource answers requests.
- `Finviz.get` builds its `services` dict eagerly. The statistics are
  therefore scraped, and the cache possibly written, even when the
  service name is unknown; the answer is still 404 (`Resource.Get`).
- `get_peers` removes only the first occurrence of `ticker.upper()`. A
  duplicated ticker survives. The ticker is missing from the result
  exactly when the upper-cased ticker occurs at most once; repeats of
  other peers make no difference (`Zacks.PeersExcludeTicker`).
- Matching is exact string equality against the upper-cased ticker.
  Peer entries are not case-folded, so a lower-case peer entry is kept
  (`Zacks.PeersMatchExactly`).

## Model

| member | source | states |
|---|---|---|
| `Cache.Get` | cache.py:15-27 | Without a cache every key misses. With one, a key hits exactly when stored, giving the stored text. |
| `Cache.Set` | cache.py:29-44 | Without a cache the store is unchanged. With one, a later `get` of the key returns the value and every other key reads as before. The TTL is `CACHE_TTL` = 60 when none is given, otherwise the one passed. |
| `Scrape.ScrapePage` | scrape.py:7-24 | The page is parsed from the cached text on a truthy hit, otherwise from freshly fetched text. A hit writes nothing. Afterwards an enabled cache holds that text under the URL and every other entry, TTL included, is unchanged. A disabled cache stays disabled. |
| `Scrape.ScrapeMiss` | scrape.py:17-24 | A missing or empty cached value counts as a miss. A miss parses the fetched text and stores it under the URL itself with the default TTL. |
| `Scrape.ScrapeIdempotent` | scrape.py:15-24 | Scraping the same URL again yields the same page and the same cache. |
| `Scrape.FetchesAgain` | scrape.py:15-22 | A second scrape of a URL makes a request exactly when the first one did and its text was not kept: there is no cache, or the fetched text was empty. |
| `Scrape.RequestsStep` | scrape.py:15-22 | One more scrape adds a request exactly when its starting cache has no truthy text for the URL. Requests over k scrapes are therefore 0 after a hit, 1 when the fetched text is cached, and k otherwise. |
| `Scrape.RequestsWithoutCache` | scrape.py:15-22 | Without a cache, k scrapes of a URL make k requests. |
| `Scrape.PageOrScrape` | finviz.py:37-38 | A supplied page is used as is and the cache is untouched. Otherwise the page is scraped. |
| `PyText.Split` | resource.py:51 | `split(",")` yields at least one piece, and no piece contains the separator. |
| `PyText.JoinSplit` | resource.py:51 | Joining the pieces with the separator gives back the original string: nothing is trimmed or dropped. |
| `PyText.SplitJoin` | resource.py:51 | Separator-free pieces, joined and split again, come back unchanged, empty pieces included. |
| `PyText.Upper` | zacks.py:41 | `upper()` keeps the length and leaves no lower-case ASCII letter. Each character is kept or is a lower-case letter shifted to upper case. |
| `PyText.DeleteChar` | stocktwits.py:24 | `replace("\n", "")` leaves no newline and keeps every other character with its multiplicity. |
| `PyText.DeleteCharConcat` | stocktwits.py:24 | Deletion distributes over concatenation, so the kept characters stay in order. |
| `PyText.DeleteCharAbsent` | stocktwits.py:24 | A string without newlines is unchanged. |
| `PyText.ListRemove` | zacks.py:40-43 | `list.remove` fails (ValueError) exactly when the element is absent. Otherwise the list is one element shorter. |
| `PyText.ListRemoveFirst` | zacks.py:41 | `list.remove` deletes exactly the first occurrence and keeps everything else in order. |
| `PyText.ListRemoveMultiset` | zacks.py:41 | Removal takes away one copy of the element and nothing else. |
| `Finviz.Zip` | finviz.py:22 | `zip` pairs position by position up to the shorter list, so surplus labels or values are dropped. |
| `Finviz.Dict` | finviz.py:22 | The keys of `dict(pairs)` are exactly the pairs' keys. |
| `Finviz.DictLastWins` | finviz.py:22 | A repeated key maps to the value of its last pair. |
| `Finviz.DictValueFromPair` | finviz.py:22 | Every dict value comes from a pair carrying its key. |
| `Finviz.Normalize` | finviz.py:20 | The placeholder `"-"` becomes `None`; every other value is kept. |
| `Finviz.StatisticsTable` | finviz.py:9-24 | The keys are exactly the first min(labels, values) labels. No value is `"-"`. A label maps to the normalised value paired with its last occurrence. |
| `Finviz.PlaceholderKeepsLabel` | finviz.py:20-22 | A label whose value is `"-"` stays a key, mapped to `None`. |
| `Finviz.GetStatistic` | finviz.py:26-45 | A found statistic is never empty and never `"-"`. |
| `Finviz.GetStatisticOnPage` | finviz.py:40-45 | A name the page does not pair gives `None`. Otherwise the result is the value paired with the name's last occurrence, or `None` when that value is `"-"` or empty. |
| `Finviz.GetAllStatistics` | finviz.py:47-64 | The result is `None` exactly when the page pairs nothing. Otherwise it is the full, non-empty table. |
| `Finviz.StatisticInAllStatistics` | finviz.py:40-62 | A statistic found on its own equals the full table's entry for it. |
| `Finviz.GetStatisticFor` | finviz.py:37-43 | Without a page, the statistic is looked up on the page scraped from `BASE_URL + ticker`, and the cache is left as that scrape leaves it. |
| `Finviz.GetAllStatisticsFor` | finviz.py:56-62 | The same, for the full table. |
| `Stocktwits.Sentiment` | stocktwits.py:19-24 | An empty query gives `None`. Otherwise the result is the first node without newlines followed by the suffix, and contains no newline. |
| `Stocktwits.SentimentReadsFirstNode` | stocktwits.py:24 | Nodes after the first are ignored. |
| `Stocktwits.GetBullishSentiment` | stocktwits.py:9-24 | The result is `None` exactly when the bullish query is empty. Otherwise it is newline-free, non-empty, and ends in `" Bullish"` after the first node's text. |
| `Stocktwits.GetBearishSentiment` | stocktwits.py:26-41 | The same with the bearish query and `" Bearish"`. |
| `Stocktwits.GetSentiment` | stocktwits.py:43-59 | The result is `None` exactly when the bullish query is empty, whatever the bearish query holds. Otherwise it is (bullish, bearish), and the bearish half may be `None`. |
| `Stocktwits.SentimentShortCircuits` | stocktwits.py:54-59 | A page with only a bearish figure gives `None`. |
| `Stocktwits.GetSentimentFor` | stocktwits.py:51-57 | Without a page, the sentiment is read from the page scraped from `BASE_URL + ticker`. |
| `Zacks.GetRating` | zacks.py:9-24 | The result is `None` exactly when the rating query is empty. Otherwise it is the first node verbatim. |
| `Zacks.Peers` | zacks.py:37-50 | The result is `None` exactly when the list is empty or is just the upper-cased ticker. A present ticker loses its first occurrence (length n-1). An absent ticker leaves the list as is (length n). |
| `Zacks.GetPeers` | zacks.py:26-50 | The result is `Peers` applied to the peer query's nodes, so it is `None` exactly when the query is empty or holds only the upper-cased ticker. The result never holds anything the page did not. |
| `Zacks.PeersRemoveOnlyFirst` | zacks.py:41 | Exactly one copy of the ticker is removed, so a duplicate survives. |
| `Zacks.PeersExcludeTicker` | zacks.py:39-48 | When a list comes back, it holds the upper-cased ticker exactly when the page listed that ticker at least twice. |
| `Zacks.PeersExcludeTickerExample` | zacks.py:39-48 | `["MSFT", "MSFT", "AAPL"]` for ticker `"aapl"` gives `["MSFT", "MSFT"]`: a repeated other peer does not keep the ticker in. |
| `Zacks.PeersMatchExactly` | zacks.py:41 | `"AAPL"` is removed for ticker `"aapl"`, but a peer entry `"aapl"` is kept. A list holding only the ticker gives `None`. |
| `Zacks.GetRatingFor` | zacks.py:16-19 | Without a page, the rating comes from the page scraped from `BASE_URL + ticker`. |
| `Zacks.GetPeersFor` | zacks.py:34-37 | Without a page, the peers come from the page scraped from `BASE_URL + ticker`. |
| `Resource.Error` | resource.py:12-23 | 404 carries `{"Error 404": "Could not find data"}`. 500 carries `{"Error 500": "Could not get data"}`. |
| `Resource.Json` | resource.py:25-30 | The status is 200 exactly for a dict, with that dict as the body. Anything else gives the 500 error. |
| `Resource.CollectFieldsResolves` | resource.py:50-54 | The response holds exactly the requested names whose statistic is truthy, each with that statistic. |
| `Resource.CollectFieldsStep` | resource.py:51-54 | Each loop iteration adds the current name exactly when its statistic is truthy. |
| `Resource.StatisticsResponse` | resource.py:48-60 | The status is always 200 or 404, and 404 carries the 404 body. With truthy `fields`: 404 exactly when no name resolves, otherwise the resolved names. Without: 200 with the full table exactly when `get_all_statistics` finds one. |
| `Resource.FieldNamesUntrimmed` | resource.py:51 | `"P/E, Price"` splits to `"P/E"` and `" Price"`, and an empty name is kept. |
| `Resource.RescrapedStatistic` | resource.py:51-52 | Each `get_statistic` in the loop sees the first scrape's page and leaves the cache as the first scrape did. |
| `Resource.ScrapeStatistic` | resource.py:51-52 | One `get_statistic(ticker, arg)` of the loop reads the first scrape's page, leaves the cache as the first scrape did, and adds one request exactly when its starting cache has no truthy text for the URL. |
| `Resource.CollectFieldsScraping` | resource.py:50-54 | The per-name loop, cache threaded through, returns what the one-page collection gives. The cache ends as one scrape leaves it. It makes one request per name without a cache, and at most one with a cache unless the fetched text is empty. |
| `Resource.GetStatistics` | resource.py:48-60 | `get_statistics` answers the one-page response, and the cache ends as one scrape leaves it. It scrapes once per field name, or once for the whole table, and without a cache each scrape is a request. |
| `Resource.Get` | resource.py:39-46 | Any service other than `"statistics"` gives the 404 error. `"statistics"` gives the statistics response. Either way the statistics were scraped first, with the same request count as `get_statistics`. |

## Left out

- Network retrieval and HTML parsing are foreign code. They are the functions of `Web`. A fetch is a total, deterministic function of the URL, so network errors and pages that change between requests are not modelled.
- `Web.parse` is total. lxml's `html.fromstring` raises `ParserError` on an empty or whitespace-only document, so a fetched empty page (scrape.py:22-24) is an exception in the program but an ordinary page in the model.
- Scrape.ScrapeIdempotent: the same page comes back only because the model's fetch is a function of the URL. Without a cache, or after an empty fetch, the program sends a new request, and a live site may answer it differently.
- Resource.CollectFieldsScraping: n field names cost n requests when no cache is configured (stated as `requests`). The proof that every name reads the same page relies on the deterministic fetch, not on the program.
- Resource.RescrapedStatistic: relies on the deterministic fetch, as above.
- The memcache client's connection and its server-side TTL expiry depend on time and the network. The cache is modelled as present or absent, with entries that never expire.
- The memcache client rejects keys longer than 250 characters or containing whitespace or control characters. Whether a key is accepted depends only on the key, the URL built from the ticker. The model accepts every key, because that check belongs to the foreign client library. A ticker of ordinary letters gives an acceptable key.
- Flask and flask_restful plumbing (`reqparse`, `make_response`, `jsonify`), `api.py` routing and `webserver.py` hosting are framework I/O. A response is a status code and a body.
- The `Stocktwits` and `Zacks` resource classes (resource.py:63-77) are stubs with no behaviour. `Zacks.__init__` even lacks `self`.
- The `__main__` blocks print live results from the websites.
- The page-less forms of `get_bullish_sentiment` and `get_bearish_sentiment` are not separate members. Their `page is None` branch is `Scrape.PageOrScrape`, as for every other extractor.
- PyText.Upper: maps ASCII letters only. Python's `str.upper` also maps non-ASCII letters, e.g. `"ß"` to `"SS"`. Tickers are ASCII.
- Resource.Json: only `None`, `str` and `dict` are distinguished among the Python values `json` may be handed. The resource only ever passes a dict.
