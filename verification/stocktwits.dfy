/**
 * The StockTwits sentiment extractor (stocktwits.py): the first text node of
 * each sentiment query, newlines removed, with a descriptive suffix.
 */
module Stocktwits {
  import opened Options
  import opened Cache
  import opened Scrape
  import opened PyText

  const BASE_URL: string := "http://stocktwits.com/symbol/"
  const BULLISH_SENTIMENT_XPATH: string := "//*[@id=\"sentiment-chart\"]/div/ul/li[1]/span/text()"
  const BEARISH_SENTIMENT_XPATH: string := "//*[@id=\"sentiment-chart\"]/div/ul/li[2]/span/text()"
  const BULLISH_SUFFIX: string := " Bullish"
  const BEARISH_SUFFIX: string := " Bearish"

  /**
   * The shared shape of both sentiment getters: `None` for an empty query
   * result, otherwise the first node with every newline removed, then `suffix`.
   */
  function Sentiment(nodes: seq<string>, suffix: string): (r: Option<string>)
    ensures r.None? <==> |nodes| == 0
    ensures r.Some? ==> r.value == DeleteChar(nodes[0], '\n') + suffix
    ensures r.Some? ==> '\n' in suffix || '\n' !in r.value
  {
    if |nodes| == 0 then None
    else
      Some(DeleteChar(nodes[0], '\n') + suffix)
  }

  /** Only the first node is read; any later nodes are ignored. */
  lemma SentimentReadsFirstNode(nodes: seq<string>, suffix: string)
    requires |nodes| > 0
    ensures Sentiment(nodes, suffix) == Sentiment(nodes[..1], suffix)
  {
  }

  /** `get_bullish_sentiment(ticker, page)`. */
  function GetBullishSentiment(page: Page): (r: Option<string>)
    ensures r.None? <==> |page(BULLISH_SENTIMENT_XPATH)| == 0
    ensures r.Some? ==> '\n' !in r.value && r.value != ""
    ensures r.Some? ==> r.value == DeleteChar(page(BULLISH_SENTIMENT_XPATH)[0], '\n') + BULLISH_SUFFIX
  {
    Sentiment(page(BULLISH_SENTIMENT_XPATH), BULLISH_SUFFIX)
  }

  /** `get_bearish_sentiment(ticker, page)`. */
  function GetBearishSentiment(page: Page): (r: Option<string>)
    ensures r.None? <==> |page(BEARISH_SENTIMENT_XPATH)| == 0
    ensures r.Some? ==> '\n' !in r.value && r.value != ""
    ensures r.Some? ==> r.value == DeleteChar(page(BEARISH_SENTIMENT_XPATH)[0], '\n') + BEARISH_SUFFIX
  {
    Sentiment(page(BEARISH_SENTIMENT_XPATH), BEARISH_SUFFIX)
  }

  /**
   * `get_sentiment(ticker, page)`: the pair (bullish, bearish) when the
   * bullish figure is truthy, else `None`; the bearish half may be `None`.
   */
  function GetSentiment(page: Page): (r: Option<(string, Option<string>)>)
    ensures r.None? <==> |page(BULLISH_SENTIMENT_XPATH)| == 0
    ensures r.Some? ==> Some(r.value.0) == GetBullishSentiment(page)
    ensures r.Some? ==> r.value.1 == GetBearishSentiment(page)
  {
    var bullish := GetBullishSentiment(page);
    if Truthy(bullish) then Some((bullish.value, GetBearishSentiment(page))) else None
  }

  /** A page with only a bearish figure gives no sentiment at all: the bearish value exists but is never used. */
  lemma SentimentShortCircuits(page: Page)
    requires |page(BULLISH_SENTIMENT_XPATH)| == 0 && |page(BEARISH_SENTIMENT_XPATH)| > 0
    ensures GetBearishSentiment(page).Some?
    ensures GetSentiment(page) == None
  {
  }

  /** `get_sentiment(ticker, page)` with the optional page, scraping BASE_URL + ticker when it is absent. */
  function GetSentimentFor(ticker: string, page: Option<Page>, web: Web, store: Store)
    : (r: (Option<(string, Option<string>)>, Store))
    ensures page.Some? ==> r == (GetSentiment(page.value), store)
    ensures page.None? ==>
              r == (GetSentiment(ScrapePage(store, BASE_URL + ticker, web).0), ScrapePage(store, BASE_URL + ticker, web).1)
  {
    var (p, after) := PageOrScrape(page, BASE_URL + ticker, web, store);
    (GetSentiment(p), after)
  }
}
