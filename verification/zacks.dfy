/**
 * The Zacks extractor (zacks.py): the Zacks Rank rating and the list of
 * top peers with the queried ticker taken out.
 */
module Zacks {
  import opened Options
  import opened Cache
  import opened Scrape
  import opened PyText

  const BASE_URL: string := "http://www.zacks.com/stock/quote/"
  const RATING_XPATH: string := "//*[@id=\"premium_research\"]/div/table/tbody/tr[1]/td/strong/text()"
  const PEERS_XPATH: string := "//*[@id=\"stock_industry_analysis\"]/table/tbody/tr/td[2]/a/span/text()"

  /** `get_rating(ticker, page)`: the first rating node verbatim, or `None` when there is none. */
  function GetRating(page: Page): (r: Option<string>)
    ensures r.None? <==> |page(RATING_XPATH)| == 0
    ensures r.Some? ==> r.value == page(RATING_XPATH)[0]
  {
    var rating := page(RATING_XPATH);
    if |rating| == 0 then None else Some(rating[0])
  }

  /**
   * The body of `get_peers` on the peer query's result: remove the first
   * `ticker.upper()` if there is one (a ValueError is swallowed), and answer
   * `None` when nothing is left.
   */
  function Peers(ticker: string, peers: seq<string>): (r: Option<seq<string>>)
    ensures r.None? <==> |peers| == 0 || peers == [Upper(ticker)]
    ensures r.Some? ==> |r.value| == |peers| - (if Upper(ticker) in peers then 1 else 0)
    ensures r.Some? && Upper(ticker) !in peers ==> r.value == peers
    ensures r.Some? && Upper(ticker) in peers ==>
              var i := FirstIndex(peers, Upper(ticker));
              r.value == peers[..i] + peers[i + 1..]
  {
    if |peers| > 0 then
      var remaining := match ListRemove(peers, Upper(ticker))
        case Some(rest) => rest
        case None => peers;
      assert Upper(ticker) in peers ==>
               var i := FirstIndex(peers, Upper(ticker));
               remaining == peers[..i] + peers[i + 1..] by {
        if Upper(ticker) in peers {
          ListRemoveFirst(peers, Upper(ticker));
        }
      }
      if |remaining| > 0 then Some(remaining) else None
    else
      None
  }

  /** `get_peers(ticker, page)`. */
  function GetPeers(ticker: string, page: Page): (r: Option<seq<string>>)
    ensures r == Peers(ticker, page(PEERS_XPATH))
    ensures r.None? <==> |page(PEERS_XPATH)| == 0 || page(PEERS_XPATH) == [Upper(ticker)]
    ensures r.Some? ==> multiset(r.value) <= multiset(page(PEERS_XPATH))
  {
    var peers := page(PEERS_XPATH);
    var r := Peers(ticker, peers);
    assert r.Some? ==> multiset(r.value) <= multiset(peers) by {
      if r.Some? && Upper(ticker) in peers {
        ListRemoveMultiset(peers, Upper(ticker));
      }
    }
    r
  }

  /** Only the first copy of the upper-cased ticker goes; every other entry stays, so a duplicate survives. */
  lemma PeersRemoveOnlyFirst(ticker: string, peers: seq<string>)
    requires Upper(ticker) in peers && |peers| > 1
    ensures Peers(ticker, peers).Some?
    ensures multiset(Peers(ticker, peers).value) == multiset(peers) - multiset{Upper(ticker)}
  {
    ListRemoveMultiset(peers, Upper(ticker));
  }

  /**
   * The upper-cased ticker survives exactly when it occurred more than once:
   * a ticker that occurs at most once is always gone, whatever else repeats.
   */
  lemma PeersExcludeTicker(ticker: string, peers: seq<string>)
    ensures Peers(ticker, peers).Some? ==>
              (Upper(ticker) in Peers(ticker, peers).value <==> multiset(peers)[Upper(ticker)] >= 2)
  {
    if Peers(ticker, peers).Some? && Upper(ticker) in peers {
      ListRemoveMultiset(peers, Upper(ticker));
      assert multiset(Peers(ticker, peers).value)[Upper(ticker)] == multiset(peers)[Upper(ticker)] - 1;
    }
  }

  /** A list with a repeated other peer still loses its only copy of the ticker. */
  lemma PeersExcludeTickerExample()
    ensures Peers("aapl", ["MSFT", "MSFT", "AAPL"]) == Some(["MSFT", "MSFT"])
  {
    assert Upper("aapl") == "AAPL";
    var peers := ["MSFT", "MSFT", "AAPL"];
    assert peers[2] == "AAPL" && peers != ["AAPL"];
    assert FirstIndex(peers, "AAPL") == 2;
    assert peers[..2] + peers[3..] == ["MSFT", "MSFT"];
  }

  /** Matching is exact after upper-casing the ticker only: a lower-case peer entry is kept. */
  lemma PeersMatchExactly()
    ensures Peers("aapl", ["AAPL", "MSFT"]) == Some(["MSFT"])
    ensures Peers("aapl", ["aapl", "MSFT"]) == Some(["aapl", "MSFT"])
    ensures Peers("goog", ["GOOG"]) == None
  {
    assert Upper("aapl") == "AAPL";
    assert Upper("goog") == "GOOG";
    assert ["aapl", "MSFT"][0] != "AAPL";
  }

  /** `get_rating(ticker, page)` with the optional page, scraping BASE_URL + ticker when it is absent. */
  function GetRatingFor(ticker: string, page: Option<Page>, web: Web, store: Store)
    : (r: (Option<string>, Store))
    ensures page.Some? ==> r == (GetRating(page.value), store)
    ensures page.None? ==>
              r == (GetRating(ScrapePage(store, BASE_URL + ticker, web).0), ScrapePage(store, BASE_URL + ticker, web).1)
  {
    var (p, after) := PageOrScrape(page, BASE_URL + ticker, web, store);
    (GetRating(p), after)
  }

  /** `get_peers(ticker, page)` with the optional page, scraping BASE_URL + ticker when it is absent. */
  function GetPeersFor(ticker: string, page: Option<Page>, web: Web, store: Store)
    : (r: (Option<seq<string>>, Store))
    ensures page.Some? ==> r == (GetPeers(ticker, page.value), store)
    ensures page.None? ==>
              r == (GetPeers(ticker, ScrapePage(store, BASE_URL + ticker, web).0), ScrapePage(store, BASE_URL + ticker, web).1)
  {
    var (p, after) := PageOrScrape(page, BASE_URL + ticker, web, store);
    (GetPeers(ticker, p), after)
  }
}
