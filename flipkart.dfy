/** `scrape_flipkart`: the Flipkart extraction rules. */
module FlipkartExtractor {

  import opened Wrappers
  import opened Text
  import opened Relevance
  import opened Page
  import opened Listing

  const ContainerSelectors: seq<Selector> :=
    ["div[data-id]", "div._1AtVbE", "div._13oc-S", "div.tUxRFH", "div._2kHMtA", "div.cPHDOP"]

  /** A locator qualifies as the product grid when it finds at least this many containers. */
  const MinContainers: nat := 3

  /** At most this many containers are examined. */
  const MaxContainers: nat := 20

  const TitleSelectors: seq<Selector> :=
    ["a.wjcEIp", "a.WKTcLC", "div.KzDlHZ", "a.IRpwTa", "div._2WkVRV", "a.s1Q9rs", "a._2rpwqI", "div._4rR01T"]

  const PriceSelectors: seq<Selector> :=
    ["div.Nx9bqj", "div._30jeq3", "div._3I9_wc", "div._25b18c", "div.hl05eU", "div._16Jk6d"]

  const RatingSelectors: seq<Selector> := ["span.Wphh3N", "div.XQDdHH", "div._3LWZlK", "span._2_R_DZ"]

  const Origin: string := "https://www.flipkart.com"

  /** The search URL for an already percent-encoded query. */
  function SearchUrl(encodedQuery: string): string {
    Origin + "/search?q=" + encodedQuery
  }

  /** A link that points at a product page. */
  predicate ProductLink(href: string) {
    href != "" && (Contains(href, "/p/") || Contains(href, "/dp/") || Contains(href, "pid="))
  }

  /** The product URL: the first `a[href]` link when it points at a product page, else the search URL. */
  function ProductUrl(c: Container, searchUrl: string): string {
    if "a[href]" in c.found && Attr(c.found["a[href]"], "href").Some? &&
       ProductLink(Attr(c.found["a[href]"], "href").value)
    then AbsoluteUrl(Origin, Attr(c.found["a[href]"], "href").value)
    else searchUrl
  }

  /** `src or data-src or "N/A"` of the first image. */
  function ImageUrl(c: Container): string {
    if "img" in c.found then
      var img := c.found["img"];
      Or(OrEmpty(Attr(img, "src")), Or(OrEmpty(Attr(img, "data-src")), "N/A"))
    else "N/A"
  }

  /** The record one container yields, or None when it is skipped. */
  function Record(query: string, searchUrl: string, c: Container): (r: Option<Product>)
    ensures r.Some? ==> Emitted(r.value, Flipkart) && IsRelevant(r.value.title, query) && r.value.price != "N/A"
  {
    var title := KeepLast(c.found, TitleSelectors, TextOrTitle, LongerThan3, "");
    if title == "" || !IsRelevant(title, query) then None
    else
      var url := ProductUrl(c, searchUrl);
      var price := KeepLast(c.found, PriceSelectors, StrippedText, PlausiblePrice, "N/A");
      if price == "N/A" then None
      else
        var rating := KeepLast(c.found, RatingSelectors, StrippedText, NonEmpty, "N/A");
        Some(MakeProduct(title, price, rating, Flipkart, Some(url), Some(ImageUrl(c))))
  }

  /** A container is kept exactly when its title loop read a title, that title is
      relevant, and its price is no longer "N/A"; a kept record carries what
      those loops and the link, rating and image reads left. */
  lemma RecordKept(query: string, searchUrl: string, c: Container)
    ensures Record(query, searchUrl, c).Some? <==>
      var title := KeepLast(c.found, TitleSelectors, TextOrTitle, LongerThan3, "");
      title != "" && IsRelevant(title, query) && KeepLast(c.found, PriceSelectors, StrippedText, PlausiblePrice, "N/A") != "N/A"
    ensures Record(query, searchUrl, c).Some? ==>
      var p := Record(query, searchUrl, c).value;
      && p.title == KeepLast(c.found, TitleSelectors, TextOrTitle, LongerThan3, "")
      && p.price == KeepLast(c.found, PriceSelectors, StrippedText, PlausiblePrice, "N/A")
      && p.rating == KeepLast(c.found, RatingSelectors, StrippedText, NonEmpty, "N/A")
      && p.url == Some(ProductUrl(c, searchUrl))
      && p.image == Some(ImageUrl(c))
  {
  }

  /** One iteration of the container loop. */
  method Extract(query: string, searchUrl: string, c: Container) returns (p: Option<Product>)
    ensures p == Record(query, searchUrl, c)
    ensures p.Some? ==> Emitted(p.value, Flipkart) && IsRelevant(p.value.title, query) && p.value.price != "N/A"
  {
    var title, _ := ScanField(c.found, TitleSelectors, TextOrTitle, LongerThan3, "");
    if title == "" || !IsRelevant(title, query) {
      return None;
    }
    var url := searchUrl;
    if "a[href]" in c.found {
      var href := Attr(c.found["a[href]"], "href");
      if href.Some? && ProductLink(href.value) {
        url := AbsoluteUrl(Origin, href.value);
      }
    }
    var price, _ := ScanField(c.found, PriceSelectors, StrippedText, PlausiblePrice, "N/A");
    if price == "N/A" {
      return None;
    }
    var rating, _ := ScanField(c.found, RatingSelectors, StrippedText, NonEmpty, "N/A");
    var image := "N/A";
    if "img" in c.found {
      var img := c.found["img"];
      image := Or(OrEmpty(Attr(img, "src")), Or(OrEmpty(Attr(img, "data-src")), "N/A"));
    }
    p := Some(MakeProduct(title, price, rating, Flipkart, Some(url), Some(image)));
  }
}
