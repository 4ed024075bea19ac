/** The four `scrape_*` methods: navigation, container choice, the cap, and the container loop. */
module Scrapers {

  import opened Wrappers
  import opened Sequences
  import opened Relevance
  import opened Page
  import opened Listing
  import FlipkartExtractor
  import AmazonExtractor
  import VijaySalesExtractor
  import JioMartExtractor

  /** The first `n` elements, as the slice `s[:n]`. */
  function Take<T>(s: seq<T>, n: nat): (r: seq<T>)
    ensures |r| <= n && |r| <= |s|
    ensures |s| <= n ==> r == s
    ensures |s| > n ==> |r| == n
    ensures r <= s
  {
    if |s| <= n then s else s[..n]
  }

  function Cap(source: Source): nat {
    match source
    case Flipkart => FlipkartExtractor.MaxContainers
    case Amazon => AmazonExtractor.MaxContainers
    case VijaySales => VijaySalesExtractor.MaxContainers
    case JioMart => JioMartExtractor.MaxContainers
  }

  /** The search page each source is sent to, for the already URL-encoded query. */
  function SearchUrl(source: Source, encodedQuery: string): string {
    match source
    case Flipkart => FlipkartExtractor.SearchUrl(encodedQuery)
    case Amazon => AmazonExtractor.SearchUrl(encodedQuery)
    case VijaySales => VijaySalesExtractor.SearchUrl(encodedQuery)
    case JioMart => JioMartExtractor.SearchUrl(encodedQuery)
  }

  /** The containers a source's locators choose on its search page. */
  function Containers(source: Source, doc: Document): seq<Container> {
    match source
    case Flipkart => FirstQualifying(doc, FlipkartExtractor.ContainerSelectors, FlipkartExtractor.MinContainers)
    case Amazon => AmazonExtractor.Containers(doc)
    case VijaySales => FirstQualifying(doc, VijaySalesExtractor.ContainerSelectors, VijaySalesExtractor.MinContainers)
    case JioMart => JioMartExtractor.Containers(doc)
  }

  /** The record one container of a source yields. */
  function Record(source: Source, query: string, searchUrl: string, c: Container): (r: Option<Product>)
    ensures r.Some? ==> Good(r.value, source, query)
  {
    match source
    case Flipkart => FlipkartExtractor.Record(query, searchUrl, c)
    case Amazon => AmazonExtractor.Record(query, searchUrl, c)
    case VijaySales => VijaySalesExtractor.Record(query, searchUrl, c)
    case JioMart => JioMartExtractor.Record(query, searchUrl, c)
  }

  /** What each container yields, in container order. */
  function Results(source: Source, query: string, searchUrl: string, cs: seq<Container>): seq<Option<Product>> {
    Map((c: Container) => Record(source, query, searchUrl, c), cs)
  }

  /** The records of the containers in order; a skipped container contributes nothing. */
  function Collect(source: Source, query: string, searchUrl: string, cs: seq<Container>): (r: seq<Product>)
    ensures |r| <= |cs|
  {
    Somes(Results(source, query, searchUrl, cs))
  }

  /** What a source's scraper returns for a search page; None is a page that failed to load,
      which the outer handler turns into an empty list. */
  function Scrape(source: Source, query: string, encodedQuery: string, page: Option<Document>): (r: seq<Product>)
    ensures page.None? ==> r == []
    ensures |r| <= Cap(source)
    ensures forall p :: p in r ==> Good(p, source, query)
  {
    match page
    case None => []
    case Some(doc) =>
      var cs := Take(Containers(source, doc), Cap(source));
      CollectMembers(source, query, SearchUrl(source, encodedQuery), cs);
      Collect(source, query, SearchUrl(source, encodedQuery), cs)
  }

  /** What every record of a source satisfies. */
  predicate Good(p: Product, source: Source, query: string) {
    && Emitted(p, source)
    && IsRelevant(p.title, query)
    && (source != JioMart ==> p.price != "N/A")
    && (source == JioMart ==> p.rating == "N/A")
  }

  /** Collecting a concatenation collects each part in turn. */
  lemma CollectAppend(source: Source, query: string, searchUrl: string, a: seq<Container>, b: seq<Container>)
    ensures Collect(source, query, searchUrl, a + b) == Collect(source, query, searchUrl, a) + Collect(source, query, searchUrl, b)
  {
    var ra, rb := Results(source, query, searchUrl, a), Results(source, query, searchUrl, b);
    MapAppend((c: Container) => Record(source, query, searchUrl, c), a, b);
    SomesAppend(ra, rb);
  }

  /** A record is collected exactly when some container yields it. */
  lemma CollectMembers(source: Source, query: string, searchUrl: string, cs: seq<Container>)
    ensures forall p :: p in Collect(source, query, searchUrl, cs) <==>
      exists i :: 0 <= i < |cs| && Record(source, query, searchUrl, cs[i]) == Some(p)
  {
    var rs := Results(source, query, searchUrl, cs);
    SomesMembers(rs);
    assert forall i :: 0 <= i < |cs| ==> rs[i] == Record(source, query, searchUrl, cs[i]);
  }

  /** One container, with the source's own extraction. */
  method ExtractFrom(source: Source, query: string, searchUrl: string, c: Container) returns (p: Option<Product>)
    ensures p == Record(source, query, searchUrl, c)
    ensures p.Some? ==> Good(p.value, source, query)
  {
    match source
    case Flipkart => p := FlipkartExtractor.Extract(query, searchUrl, c);
    case Amazon => p := AmazonExtractor.Extract(query, searchUrl, c);
    case VijaySales => p := VijaySalesExtractor.Extract(query, searchUrl, c);
    case JioMart => p := JioMartExtractor.Extract(query, searchUrl, c);
  }

  /** Every record of `products` satisfies what the source promises. */
  predicate AllGood(products: seq<Product>, source: Source, query: string) {
    forall p :: p in products ==> Good(p, source, query)
  }

  lemma AllGoodSnoc(products: seq<Product>, source: Source, query: string, p: Option<Product>)
    requires AllGood(products, source, query) && (p.Some? ==> Good(p.value, source, query))
    ensures AllGood(products + (if p.Some? then [p.value] else []), source, query)
  {
  }

  /** The container loop shared by the four scrapers: each container's failure is
      a skipped container, and the records are appended in container order. */
  method CollectRecords(source: Source, query: string, searchUrl: string, cs: seq<Container>) returns (products: seq<Product>)
    ensures products == Collect(source, query, searchUrl, cs)
    ensures forall p :: p in products ==> Good(p, source, query)
  {
    ghost var results := Results(source, query, searchUrl, cs);
    products := [];
    var i := 0;
    while i < |cs|
      invariant 0 <= i <= |cs|
      invariant products == Somes(results[..i])
      invariant AllGood(products, source, query)
    {
      var p := ExtractFrom(source, query, searchUrl, cs[i]);
      SomesSnoc(results, i);
      AllGoodSnoc(products, source, query, p);
      products := products + (if p.Some? then [p.value] else []);
      i := i + 1;
    }
    assert results[..i] == results;
  }

  /** A scraper: the search page, the containers its locators choose, the cap, then the loop. */
  method ScrapeSource(source: Source, query: string, encodedQuery: string, page: Option<Document>) returns (products: seq<Product>)
    ensures products == Scrape(source, query, encodedQuery, page)
    ensures |products| <= Cap(source)
    ensures forall p :: p in products ==> Good(p, source, query)
  {
    if page.None? {
      return [];
    }
    var doc := page.value;
    var containers: seq<Container>;
    match source {
      case Flipkart =>
        containers := ChooseContainers(doc, FlipkartExtractor.ContainerSelectors, FlipkartExtractor.MinContainers);
      case Amazon =>
        containers := AmazonExtractor.Containers(doc);
      case VijaySales =>
        containers := ChooseContainers(doc, VijaySalesExtractor.ContainerSelectors, VijaySalesExtractor.MinContainers);
      case JioMart =>
        containers := JioMartExtractor.Containers(doc);
    }
    products := CollectRecords(source, query, SearchUrl(source, encodedQuery), Take(containers, Cap(source)));
  }
}
