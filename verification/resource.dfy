/**
 * The Finviz REST resource (resource.py): service dispatch, the `fields`
 * filter, and the JSON / error responses, as a status code plus a body.
 */
module Resource {
  import opened Options
  import opened Cache
  import opened Scrape
  import opened PyText
  import Finviz

  /** A JSON object whose values are strings or `null`. */
  type Body = map<string, Option<string>>

  /** What `make_response(jsonify(body), status)` carries. */
  datatype Response = Response(status: int, body: Body)

  /** The Python values `json` may be handed: only a `dict` is serialisable as a success. */
  datatype PyValue = PyNone | PyStr(text: string) | PyDict(entries: Body)

  const ERROR_404_BODY: Body := map["Error 404" := Some("Could not find data")]
  const ERROR_500_BODY: Body := map["Error 500" := Some("Could not get data")]

  /** The one service the Finviz resource offers. */
  const STATISTICS: string := "statistics"

  /** `API_Resource.error(status_code)`; the `errors` table has entries for 404 and 500 only. */
  function Error(code: int): (r: Response)
    requires code == 404 || code == 500
    ensures r.status == code
    ensures r.body == (if code == 404 then ERROR_404_BODY else ERROR_500_BODY)
  {
    Response(code, if code == 404 then ERROR_404_BODY else ERROR_500_BODY)
  }

  /** `API_Resource.json(response)`: 200 with the dict itself, 500 for anything that is not a dict. */
  function Json(v: PyValue): (r: Response)
    ensures r.status == 200 <==> v.PyDict?
    ensures r.status == 200 ==> r.body == v.entries
    ensures r.status != 200 ==> r == Error(500)
  {
    match v
    case PyDict(entries) => Response(200, entries)
    case _ => Error(500)
  }

  /* ---------------------------------------------------------------------
   * get_statistics on one page
   * ------------------------------------------------------------------- */

  /** The comma-separated names of a truthy `fields` argument, untrimmed. */
  function FieldNames(fields: string): seq<string>
  {
    Split(fields, ',')
  }

  /**
   * The `for arg in fields.split(",")` loop of `get_statistics` on one page:
   * each name with a truthy statistic is written into the response in turn.
   */
  function CollectFields(page: Page, names: seq<string>): Body
    decreases |names|
  {
    if |names| == 0 then map[]
    else
      var n := |names| - 1;
      AddField(CollectFields(page, names[..n]), names[n], Finviz.GetStatistic(page, names[n]))
  }

  /** `if stat: response.update({arg: stat})`. */
  function AddField(response: Body, name: string, stat: Option<string>): Body
  {
    if Truthy(stat) then response[name := stat] else response
  }

  /** The collected response holds exactly the names whose statistic is truthy, each with that statistic. */
  lemma {:induction false} CollectFieldsResolves(page: Page, names: seq<string>)
    ensures CollectFields(page, names).Keys == set n | n in names && Finviz.GetStatistic(page, n).Some?
    ensures forall n :: n in CollectFields(page, names) ==> CollectFields(page, names)[n] == Finviz.GetStatistic(page, n)
    decreases |names|
  {
    if |names| > 0 {
      var n := |names| - 1;
      CollectFieldsResolves(page, names[..n]);
      assert forall m :: m in names <==> m in names[..n] || m == names[n] by {
        assert names == names[..n] + [names[n]];
      }
    }
  }

  /** One more name extends the collected response as one loop iteration does. */
  lemma CollectFieldsStep(page: Page, names: seq<string>, i: int)
    requires 0 <= i < |names|
    ensures CollectFields(page, names[..i + 1])
         == AddField(CollectFields(page, names[..i]), names[i], Finviz.GetStatistic(page, names[i]))
  {
    assert names[..i + 1][..i] == names[..i];
  }

  /** `Finviz.get_statistics(ticker, args)` once the page is fixed. */
  function StatisticsResponse(page: Page, fields: Option<string>): (r: Response)
    ensures r.status == 200 || r.status == 404
    ensures r.status == 404 ==> r.body == ERROR_404_BODY
    ensures Truthy(fields) ==>
              (r.status == 404 <==> forall n :: n in FieldNames(fields.value) ==> Finviz.GetStatistic(page, n).None?)
    ensures Truthy(fields) && r.status == 200 ==>
              r.body.Keys == set n | n in FieldNames(fields.value) && Finviz.GetStatistic(page, n).Some?
    ensures Truthy(fields) && r.status == 200 ==>
              forall n :: n in r.body ==> r.body[n] == Finviz.GetStatistic(page, n)
    ensures !Truthy(fields) ==> (r.status == 200 <==> Finviz.GetAllStatistics(page).Some?)
    ensures !Truthy(fields) && r.status == 200 ==> r.body == Finviz.GetAllStatistics(page).value
  {
    if Truthy(fields) then
      var response := CollectFields(page, FieldNames(fields.value));
      CollectFieldsResolves(page, FieldNames(fields.value));
      assert |response| == 0 <==> forall n :: n in FieldNames(fields.value) ==> Finviz.GetStatistic(page, n).None? by {
        if |response| == 0 {
          forall n | n in FieldNames(fields.value)
            ensures Finviz.GetStatistic(page, n).None?
          {
            assert n !in response;
          }
        } else {
          var k :| k in response;
        }
      }
      if |response| > 0 then Json(PyDict(response)) else Error(404)
    else
      var response := Finviz.GetAllStatistics(page);
      if response.Some? && |response.value| > 0 then Json(PyDict(response.value)) else Error(404)
  }

  /** Field names are looked up exactly as split: no trimming, empty names kept. */
  lemma FieldNamesUntrimmed()
    ensures FieldNames("P/E, Price") == ["P/E", " Price"]
    ensures FieldNames("P/E,,Price") == ["P/E", "", "Price"]
  {
    var two := ["P/E", " Price"];
    assert Join(two[1..], ',') == " Price";
    assert Join(two, ',') == "P/E, Price";
    SplitJoin(two, ',');
    var three := ["P/E", "", "Price"];
    assert Join(three[2..], ',') == "Price";
    assert Join(three[1..], ',') == ",Price";
    assert Join(three, ',') == "P/E,,Price";
    SplitJoin(three, ',');
  }

  /* ---------------------------------------------------------------------
   * The resource as called: each statistic scrapes its own page.
   * ------------------------------------------------------------------- */

  /** Any call after the first one sees the first call's page and leaves its cache as it was. */
  lemma RescrapedStatistic(ticker: string, name: string, web: Web, store: Store, current: Store)
    requires current == store || current == ScrapePage(store, Finviz.BASE_URL + ticker, web).1
    ensures Finviz.GetStatisticFor(ticker, name, None, web, current)
         == (Finviz.GetStatistic(ScrapePage(store, Finviz.BASE_URL + ticker, web).0, name),
             ScrapePage(store, Finviz.BASE_URL + ticker, web).1)
  {
    ScrapeIdempotent(store, Finviz.BASE_URL + ticker, web);
  }

  /**
   * The `i`-th `finviz.get_statistic(ticker, arg)` of the loop: it reads the
   * first scrape's page, leaves the cache as the first scrape did, and
   * reports whether its `scrape_page` went to the network.
   */
  method ScrapeStatistic(ticker: string, name: string, web: Web, store: Store, current: Store, i: nat)
    returns (stat: Option<string>, next: Store, fetched: bool)
    requires i == 0 ==> current == store
    requires i > 0 ==> current == ScrapePage(store, Finviz.BASE_URL + ticker, web).1
    ensures stat == Finviz.GetStatistic(ScrapePage(store, Finviz.BASE_URL + ticker, web).0, name)
    ensures next == ScrapePage(store, Finviz.BASE_URL + ticker, web).1
    ensures fetched <==> Fetches(current, Finviz.BASE_URL + ticker)
    ensures Requests(store, Finviz.BASE_URL + ticker, web, i + 1)
         == Requests(store, Finviz.BASE_URL + ticker, web, i) + (if fetched then 1 else 0)
  {
    var url := Finviz.BASE_URL + ticker;
    RequestsStep(store, url, web, i, current);
    fetched := Fetches(current, url);
    RescrapedStatistic(ticker, name, web, store, current);
    var r := Finviz.GetStatisticFor(ticker, name, None, web, current);
    stat, next := r.0, r.1;
  }

  /**
   * The loop of `Finviz.get_statistics` as called: one
   * `finviz.get_statistic(ticker, arg)`, and so one `scrape_page`, per
   * name. The cache threads through the calls, and because scraping is
   * idempotent every call sees the page the first one saw.
   */
  method CollectFieldsScraping(ticker: string, names: seq<string>, web: Web, store: Store)
    returns (collected: Body, after: Store, requests: nat)
    ensures collected == CollectFields(ScrapePage(store, Finviz.BASE_URL + ticker, web).0, names)
    ensures |names| > 0 ==> after == ScrapePage(store, Finviz.BASE_URL + ticker, web).1
    ensures requests == Requests(store, Finviz.BASE_URL + ticker, web, |names|)
    ensures store.Disabled? ==> requests == |names|
  {
    var url := Finviz.BASE_URL + ticker;
    ghost var page := ScrapePage(store, url, web).0;
    ghost var scraped := ScrapePage(store, url, web).1;
    collected := map[];
    after := store;
    requests := 0;
    var i := 0;
    while i < |names|
      invariant 0 <= i <= |names|
      invariant i == 0 ==> after == store
      invariant i > 0 ==> after == scraped
      invariant collected == CollectFields(page, names[..i])
      invariant requests == Requests(store, url, web, i)
    {
      var stat, next, fetched := ScrapeStatistic(ticker, names[i], web, store, after, i);
      if fetched {
        requests := requests + 1;
      }
      collected := AddField(collected, names[i], stat);
      after := next;
      CollectFieldsStep(page, names, i);
      i := i + 1;
    }
    assert names[..|names|] == names;
    if store.Disabled? {
      RequestsWithoutCache(store, url, web, |names|);
    }
  }

  /** How many times `get_statistics` calls `scrape_page`: once per name, or once for the whole table. */
  function Scrapes(fields: Option<string>): nat
  {
    if Truthy(fields) then |FieldNames(fields.value)| else 1
  }

  /**
   * `Finviz.get_statistics(ticker, args)`: the named fields when `fields`
   * is truthy, otherwise one `finviz.get_all_statistics(ticker)`.
   */
  method GetStatistics(ticker: string, fields: Option<string>, web: Web, store: Store)
    returns (response: Response, after: Store, requests: nat)
    ensures response == StatisticsResponse(ScrapePage(store, Finviz.BASE_URL + ticker, web).0, fields)
    ensures after == ScrapePage(store, Finviz.BASE_URL + ticker, web).1
    ensures requests == Requests(store, Finviz.BASE_URL + ticker, web, Scrapes(fields))
    ensures store.Disabled? ==> requests == Scrapes(fields)
  {
    if Truthy(fields) {
      var collected, next, n := CollectFieldsScraping(ticker, FieldNames(fields.value), web, store);
      after, requests := next, n;
      response := if |collected| > 0 then Json(PyDict(collected)) else Error(404);
    } else {
      var (all, next) := Finviz.GetAllStatisticsFor(ticker, None, web, store);
      after := next;
      requests := if Fetches(store, Finviz.BASE_URL + ticker) then 1 else 0;
      response := if all.Some? && |all.value| > 0 then Json(PyDict(all.value)) else Error(404);
    }
  }

  /**
   * `Finviz.get(service, ticker)`: the `services` dict is built eagerly, so
   * the statistics are scraped before the service name is even looked at;
   * an unknown service then answers 404.
   */
  method Get(service: string, ticker: string, fields: Option<string>, web: Web, store: Store)
    returns (response: Response, after: Store, requests: nat)
    ensures service != STATISTICS ==> response == Error(404)
    ensures service == STATISTICS ==>
              response == StatisticsResponse(ScrapePage(store, Finviz.BASE_URL + ticker, web).0, fields)
    ensures after == ScrapePage(store, Finviz.BASE_URL + ticker, web).1
    ensures requests == Requests(store, Finviz.BASE_URL + ticker, web, Scrapes(fields))
    ensures store.Disabled? ==> requests == Scrapes(fields)
  {
    var statistics, next, n := GetStatistics(ticker, fields, web, store);
    after, requests := next, n;
    if service == STATISTICS {
      response := statistics;
    } else {
      response := Error(404);
    }
  }
}
