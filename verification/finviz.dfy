/**
 * The Finviz statistics extractor (finviz.py). The statistics table pairs
 * the label nodes with the value nodes positionally, as `dict(zip(...))`
 * does, after normalising the placeholder `"-"` to `None`.
 */
module Finviz {
  import opened Options
  import opened Cache
  import opened Scrape

  const BASE_URL: string := "http://finviz.com/quote.ashx?t="
  const VALUE_NAMES_XPATH: string := "//*[@class=\"snapshot-td2-cp\"]/text()"
  const VALUES_XPATH: string :=
    "//*[@class=\"snapshot-td2\"]/b/text() | //*[@class=\"snapshot-td2\"]/b/*/text()"

  /** The text Finviz shows for a statistic that has no value. */
  const PLACEHOLDER: string := "-"

  /** A statistics table: label to value, `None` where Finviz shows the placeholder. */
  type Table = map<string, Option<string>>

  /* ---------------------------------------------------------------------
   * Python's zip and dict, generically.
   * ------------------------------------------------------------------- */

  function Min(a: int, b: int): int
  {
    if a <= b then a else b
  }

  /** `list(zip(a, b))`: pairs up to the shorter of the two lists. */
  function Zip<A, B>(a: seq<A>, b: seq<B>): (r: seq<(A, B)>)
    ensures |r| == Min(|a|, |b|)
    ensures forall i :: 0 <= i < |r| ==> r[i] == (a[i], b[i])
  {
    seq(Min(|a|, |b|), i requires 0 <= i < Min(|a|, |b|) => (a[i], b[i]))
  }

  /** No pair after position `i` has the same key as pair `i`. */
  ghost predicate LastKey<K, V>(pairs: seq<(K, V)>, i: int)
    requires 0 <= i < |pairs|
  {
    forall j :: i < j < |pairs| ==> pairs[j].0 != pairs[i].0
  }

  /** `dict(pairs)`: insertion in order, so a later duplicate key overwrites an earlier one. */
  function Dict<K, V>(pairs: seq<(K, V)>): (r: map<K, V>)
    ensures r.Keys == set i | 0 <= i < |pairs| :: pairs[i].0
    decreases |pairs|
  {
    if |pairs| == 0 then map[]
    else
      var n := |pairs| - 1;
      var m := Dict(pairs[..n]);
      assert forall i :: 0 <= i < n ==> pairs[..n][i] == pairs[i];
      m[pairs[n].0 := pairs[n].1]
  }

  /** Last write wins: a key maps to the value of its last pair. */
  lemma {:induction false} DictLastWins<K, V>(pairs: seq<(K, V)>, i: int)
    requires 0 <= i < |pairs| && LastKey(pairs, i)
    ensures pairs[i].0 in Dict(pairs) && Dict(pairs)[pairs[i].0] == pairs[i].1
    decreases |pairs|
  {
    var n := |pairs| - 1;
    if i < n {
      var front := pairs[..n];
      assert front[i] == pairs[i];
      assert LastKey(front, i) by {
        forall j | i < j < n
          ensures front[j].0 != front[i].0
        {
          assert front[j] == pairs[j];
        }
      }
      DictLastWins(front, i);
    }
  }

  /** Every value of the dict comes from some pair carrying its key. */
  lemma {:induction false} DictValueFromPair<K, V>(pairs: seq<(K, V)>, k: K)
    requires k in Dict(pairs)
    ensures exists i :: 0 <= i < |pairs| && pairs[i] == (k, Dict(pairs)[k])
    decreases |pairs|
  {
    var n := |pairs| - 1;
    if pairs[n].0 != k {
      var front := pairs[..n];
      DictValueFromPair(front, k);
      var i :| 0 <= i < |front| && front[i] == (k, Dict(front)[k]);
      assert pairs[i] == front[i];
    } else {
      assert pairs[n] == (k, Dict(pairs)[k]);
    }
  }

  /* ---------------------------------------------------------------------
   * get_statistics_table
   * ------------------------------------------------------------------- */

  /** `value if value != "-" else None`. */
  function Normalize(value: string): (r: Option<string>)
    ensures r != Some(PLACEHOLDER)
    ensures r.None? <==> value == PLACEHOLDER
    ensures r.Some? ==> r.value == value
  {
    if value != PLACEHOLDER then Some(value) else None
  }

  /** How many label/value pairs the page yields. */
  function Paired(names: seq<string>, values: seq<string>): nat
  {
    Min(|names|, |values|) as nat
  }

  /** Label `i` is not repeated later among the paired labels. */
  ghost predicate LastLabel(names: seq<string>, values: seq<string>, i: int)
    requires 0 <= i < Paired(names, values)
  {
    LastKey(Zip(names, values), i)
  }

  /** `dict(zip(names, [normalised values]))` over the two XPath results. */
  function StatisticsTable(names: seq<string>, values: seq<string>): (r: Table)
    ensures r.Keys == set i | 0 <= i < Paired(names, values) :: names[i]
    ensures forall k :: k in r ==> r[k] != Some(PLACEHOLDER)
    ensures forall i :: 0 <= i < Paired(names, values) && LastLabel(names, values, i) ==>
              names[i] in r && r[names[i]] == Normalize(values[i])
  {
    var normalized := seq(|values|, i requires 0 <= i < |values| => Normalize(values[i]));
    var pairs := Zip(names, normalized);
    var r := Dict(pairs);
    assert forall i :: 0 <= i < |pairs| ==> pairs[i].0 == names[i];
    forall i | 0 <= i < Paired(names, values) && LastLabel(names, values, i)
      ensures names[i] in r && r[names[i]] == Normalize(values[i])
    {
      DictLastWins(pairs, i);
    }
    forall k | k in r
      ensures r[k] != Some(PLACEHOLDER)
    {
      DictValueFromPair(pairs, k);
    }
    r
  }

  /** `get_statistics_table(page)`. */
  function GetStatisticsTable(page: Page): Table
  {
    StatisticsTable(page(VALUE_NAMES_XPATH), page(VALUES_XPATH))
  }

  /* ---------------------------------------------------------------------
   * get_statistic / get_all_statistics on a given page
   * ------------------------------------------------------------------- */

  /**
   * `get_statistic(ticker, name, page)`: the value paired with the last
   * occurrence of `name`, unless that value is the placeholder or empty.
   */
  function GetStatistic(page: Page, name: string): (r: Option<string>)
    ensures r.Some? ==> r.value != "" && r.value != PLACEHOLDER
  {
    var table := GetStatisticsTable(page);
    if name in table && Truthy(table[name]) then table[name] else None
  }

  /**
   * What `get_statistic` answers in terms of the two query results: `None`
   * for a label the page does not pair, otherwise the value paired with the
   * label's last occurrence unless that is the placeholder or empty.
   */
  lemma GetStatisticOnPage(page: Page, name: string)
    ensures var names, values := page(VALUE_NAMES_XPATH), page(VALUES_XPATH);
      (forall i :: 0 <= i < Paired(names, values) ==> names[i] != name) ==> GetStatistic(page, name).None?
    ensures var names, values := page(VALUE_NAMES_XPATH), page(VALUES_XPATH);
      forall i :: 0 <= i < Paired(names, values) && names[i] == name && LastLabel(names, values, i) ==>
        GetStatistic(page, name) == (if values[i] in {PLACEHOLDER, ""} then None else Some(values[i]))
  {
  }

  /** `get_all_statistics(ticker, page)`: the whole table, or `None` when it is empty. */
  function GetAllStatistics(page: Page): (r: Option<Table>)
    ensures r.None? <==> Paired(page(VALUE_NAMES_XPATH), page(VALUES_XPATH)) == 0
    ensures r.Some? ==> r.value == GetStatisticsTable(page) && |r.value| > 0
  {
    var table := GetStatisticsTable(page);
    if |table| > 0 then Some(table) else None
  }

  /** A statistic found on its own is the entry the full table holds for it. */
  lemma StatisticInAllStatistics(page: Page, name: string)
    ensures GetStatistic(page, name).Some? ==>
              && GetAllStatistics(page).Some?
              && name in GetAllStatistics(page).value
              && GetAllStatistics(page).value[name] == GetStatistic(page, name)
  {
  }

  /** A label present on the page stays a key even when its value is the placeholder. */
  lemma PlaceholderKeepsLabel(names: seq<string>, values: seq<string>, i: int)
    requires 0 <= i < Paired(names, values) && values[i] == PLACEHOLDER
    requires LastLabel(names, values, i)
    ensures names[i] in StatisticsTable(names, values)
    ensures StatisticsTable(names, values)[names[i]] == None
  {
  }

  /* ---------------------------------------------------------------------
   * The same calls without a page: scrape BASE_URL + ticker first.
   * ------------------------------------------------------------------- */

  /** `get_statistic(ticker, name, page)` with the optional page. */
  function GetStatisticFor(ticker: string, name: string, page: Option<Page>, web: Web, store: Store)
    : (r: (Option<string>, Store))
    ensures page.Some? ==> r == (GetStatistic(page.value, name), store)
    ensures page.None? ==>
              r == (GetStatistic(ScrapePage(store, BASE_URL + ticker, web).0, name), ScrapePage(store, BASE_URL + ticker, web).1)
  {
    var (p, after) := PageOrScrape(page, BASE_URL + ticker, web, store);
    (GetStatistic(p, name), after)
  }

  /** `get_all_statistics(ticker, page)` with the optional page. */
  function GetAllStatisticsFor(ticker: string, page: Option<Page>, web: Web, store: Store)
    : (r: (Option<Table>, Store))
    ensures page.Some? ==> r == (GetAllStatistics(page.value), store)
    ensures page.None? ==>
              r == (GetAllStatistics(ScrapePage(store, BASE_URL + ticker, web).0), ScrapePage(store, BASE_URL + ticker, web).1)
  {
    var (p, after) := PageOrScrape(page, BASE_URL + ticker, web, store);
    (GetAllStatistics(p), after)
  }
}
