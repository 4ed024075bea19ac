/** `compare_prices`: one browser session over the four sources, the price
    filter, the stable sort by price, and the teardown of the browser. */
module Comparison {

  import opened Wrappers
  import opened Sequences
  import opened Relevance
  import opened Page
  import opened Listing
  import opened Scrapers

  /** The search page each source served; None is a navigation that raised. */
  datatype Pages = Pages(flipkart: Option<Document>, amazon: Option<Document>,
                         vijaySales: Option<Document>, jioMart: Option<Document>)
  {
    function At(source: Source): Option<Document> {
      match source
      case Flipkart => flipkart
      case Amazon => amazon
      case VijaySales => vijaySales
      case JioMart => jioMart
    }
  }

  /** The smallest normalised price a record may have to be returned. */
  const MinPrice: nat := 10

  /** `p['price_num'] is not None and p['price_num'] >= 10`. */
  predicate Valid(p: Product) {
    p.priceNum.Some? && p.priceNum.value >= MinPrice
  }

  /** The sort key; the filter has already removed records without a price. */
  function PriceKey(p: Product): int {
    if p.priceNum.Some? then p.priceNum.value else 0
  }

  /** Every record, in source order and within each source in page order. */
  function AllProducts(query: string, encodedQuery: string, pages: Pages): seq<Product> {
    Scrape(Flipkart, query, encodedQuery, pages.At(Flipkart))
    + Scrape(Amazon, query, encodedQuery, pages.At(Amazon))
    + Scrape(VijaySales, query, encodedQuery, pages.At(VijaySales))
    + Scrape(JioMart, query, encodedQuery, pages.At(JioMart))
  }

  /** What `compare_prices` returns once the browser has started. */
  function Compare(query: string, encodedQuery: string, pages: Pages): (r: seq<Product>)
    ensures |r| <= |AllProducts(query, encodedQuery, pages)|
    ensures forall p :: p in r ==> Valid(p) && p in AllProducts(query, encodedQuery, pages)
  {
    var valid := Filter(AllProducts(query, encodedQuery, pages), Valid);
    SortByPermutes(valid, PriceKey);
    assert |SortBy(valid, PriceKey)| == |multiset(valid)|;
    assert forall p :: p in SortBy(valid, PriceKey) ==> p in multiset(valid);
    SortBy(valid, PriceKey)
  }

  /** The result is sorted by price, holds exactly the priced records of at least the
      minimum (each as often as it was scraped), and keeps the scraped order among equal prices. */
  lemma CompareCorrect(query: string, encodedQuery: string, pages: Pages)
    ensures SortedBy(Compare(query, encodedQuery, pages), PriceKey)
    ensures forall p :: multiset(Compare(query, encodedQuery, pages))[p] ==
                        if Valid(p) then multiset(AllProducts(query, encodedQuery, pages))[p] else 0
    ensures forall p :: p in Compare(query, encodedQuery, pages) <==> p in AllProducts(query, encodedQuery, pages) && Valid(p)
    ensures forall k :: WithKey(Compare(query, encodedQuery, pages), PriceKey, k) ==
                        WithKey(Filter(AllProducts(query, encodedQuery, pages), Valid), PriceKey, k)
  {
    FilterSortCorrect(AllProducts(query, encodedQuery, pages), Valid, PriceKey);
  }

  /** Every returned record is priced at least at the minimum and comes from one of the sources. */
  lemma ComparedFromSources(query: string, encodedQuery: string, pages: Pages, p: Product)
    requires p in Compare(query, encodedQuery, pages)
    ensures Valid(p)
    ensures exists source :: p in Scrape(source, query, encodedQuery, pages.At(source))
  {
    CompareCorrect(query, encodedQuery, pages);
    if p in Scrape(Flipkart, query, encodedQuery, pages.At(Flipkart)) {
    } else if p in Scrape(Amazon, query, encodedQuery, pages.At(Amazon)) {
    } else if p in Scrape(VijaySales, query, encodedQuery, pages.At(VijaySales)) {
    } else {
      assert p in Scrape(JioMart, query, encodedQuery, pages.At(JioMart));
    }
  }

  /** Among records of equal price, Flipkart's come first, then Amazon's, Vijay Sales'
      and JioMart's, each source's in the order its page listed them. */
  lemma TiesInSourceOrder(query: string, encodedQuery: string, pages: Pages, k: int)
    ensures WithKey(Compare(query, encodedQuery, pages), PriceKey, k) ==
      WithKey(Filter(Scrape(Flipkart, query, encodedQuery, pages.At(Flipkart)), Valid), PriceKey, k)
      + WithKey(Filter(Scrape(Amazon, query, encodedQuery, pages.At(Amazon)), Valid), PriceKey, k)
      + WithKey(Filter(Scrape(VijaySales, query, encodedQuery, pages.At(VijaySales)), Valid), PriceKey, k)
      + WithKey(Filter(Scrape(JioMart, query, encodedQuery, pages.At(JioMart)), Valid), PriceKey, k)
  {
    var f := Scrape(Flipkart, query, encodedQuery, pages.At(Flipkart));
    var a := Scrape(Amazon, query, encodedQuery, pages.At(Amazon));
    var v := Scrape(VijaySales, query, encodedQuery, pages.At(VijaySales));
    var j := Scrape(JioMart, query, encodedQuery, pages.At(JioMart));
    CompareCorrect(query, encodedQuery, pages);
    FilterAppend(f + a + v, j, Valid);
    FilterAppend(f + a, v, Valid);
    FilterAppend(f, a, Valid);
    var ff, fa, fv, fj := Filter(f, Valid), Filter(a, Valid), Filter(v, Valid), Filter(j, Valid);
    WithKeyAppend(ff + fa + fv, fj, PriceKey, k);
    WithKeyAppend(ff + fa, fv, PriceKey, k);
    WithKeyAppend(ff, fa, PriceKey, k);
  }

  /** The browser session. */
  class Driver {
    var open: bool
    var quitCalls: nat

    constructor ()
      ensures open && quitCalls == 0
    {
      open := true;
      quitCalls := 0;
    }

    /** `driver.quit()`; when it raises, the failure is swallowed and the browser is left as it was. */
    method Quit(fails: bool)
      modifies this
      ensures quitCalls == old(quitCalls) + 1
      ensures open == (old(open) && fails)
    {
      quitCalls := quitCalls + 1;
      if !fails {
        open := false;
      }
    }
  }

  /** `UniversalEcommerceScraper`: holds at most one browser. */
  class PriceComparer {
    var driver: Driver?

    constructor ()
      ensures driver == null
    {
      driver := null;
    }

    /** `create_driver`: on failure the error propagates and the field keeps its old value. */
    method CreateDriver(fails: bool) returns (ok: bool)
      modifies this
      ensures ok == !fails
      ensures ok ==> driver != null && fresh(driver) && driver.open && driver.quitCalls == 0
      ensures !ok ==> driver == old(driver)
    {
      if fails {
        return false;
      }
      driver := new Driver();
      return true;
    }

    /** `compare_prices`: None when the browser cannot be started (the error propagates
        and nothing is scraped); otherwise the sorted priced records, with the browser
        quit exactly once whether or not quitting succeeds. */
    method ComparePrices(query: string, encodedQuery: string, pages: Pages, createFails: bool, quitFails: bool)
      returns (r: Option<seq<Product>>)
      modifies this
      ensures createFails ==> r.None? && driver == old(driver)
      ensures !createFails ==> r == Some(Compare(query, encodedQuery, pages))
      ensures !createFails ==> driver != null && fresh(driver) && driver.quitCalls == 1 && driver.open == quitFails
      ensures r.Some? ==> forall p :: p in r.value ==>
        Valid(p) && IsRelevant(p.title, query) && exists source :: Good(p, source, query)
    {
      var started := CreateDriver(createFails);
      if !started {
        return None;
      }
      var all: seq<Product> := [];
      var f := ScrapeSource(Flipkart, query, encodedQuery, pages.At(Flipkart));
      all := all + f;
      assert all == f;
      var a := ScrapeSource(Amazon, query, encodedQuery, pages.At(Amazon));
      all := all + a;
      var v := ScrapeSource(VijaySales, query, encodedQuery, pages.At(VijaySales));
      all := all + v;
      var j := ScrapeSource(JioMart, query, encodedQuery, pages.At(JioMart));
      all := all + j;
      driver.Quit(quitFails);
      assert all == AllProducts(query, encodedQuery, pages);
      var valid := Filter(all, Valid);
      var sorted := SortBy(valid, PriceKey);
      forall p | p in sorted
        ensures Valid(p) && IsRelevant(p.title, query) && exists source :: Good(p, source, query)
      {
        ComparedFromSources(query, encodedQuery, pages, p);
        var source :| p in Scrape(source, query, encodedQuery, pages.At(source));
        match source {
          case Flipkart => assert p in f;
          case Amazon => assert p in a;
          case VijaySales => assert p in v;
          case JioMart => assert p in j;
        }
      }
      r := Some(sorted);
    }
  }
}
